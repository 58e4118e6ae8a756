/// The table of named sources that requests reach into and that can be removed
/// while requests run (src/core/source_table.h).
///
/// Every region the source runs under a mutex is one function on values. The
/// concurrent program is a state machine whose steps run those regions in any
/// interleaving of any number of threads; the classes at the end are the same
/// regions on mutable objects, proved equal to the functions.
module SourceTable {
  import opened Basics

  // ---------------------------------------------------------------- entries

  /// One entry: its id and value never change, the other three fields are
  /// guarded by the entry's own mutex.
  datatype Entry = Entry(id: string, value: Option<nat>, users: int, closing: bool, retired: bool)

  datatype Closed = Already | Empty | Waiting

  function Entered(e: Entry): Option<Entry> {
    if e.closing then None else Some(e.(users := e.users + 1))
  }

  function Left(e: Entry): Entry { e.(users := e.users - 1) }

  /// The first half of close(): refuse, or shut the door and look inside.
  function BeginClose(e: Entry): (Entry, Closed) {
    if e.closing && !e.retired then (e, Already)
    else (e.(closing := true), if e.users == 0 then Empty else Waiting)
  }

  function Reopened(e: Entry): Entry { if e.retired then e else e.(closing := false) }

  function Retire(e: Entry): Entry { e.(retired := true) }

  // ---------------------------------------------------------------- threads

  datatype Outcome =
    | Missing | Closing | Done | Visited | Removing
    | Inserted(isNew: bool)
    | Busy(e: nat)
    | Removed(e: nat)
    | Taken

  /// Where a thread is between two locked regions. Entries are named by their
  /// index in the heap of all entries ever created.
  datatype Pc =
    | Idle
    | WithEnter(e: nat)
    | WithInside(e: nat)
    | ForEachAt(list: seq<nat>, i: nat)
    | ForEachInside(list: seq<nat>, i: nat)
    | RemoveClose(e: nat)
    | RemoveWait(e: nat)
    | RemoveReopen(e: nat)
    | RemoveCheck(e: nat)
    | RemoveErase(e: nat)
    | TakeRetire(list: seq<nat>, i: nat)
    | TakeClose(list: seq<nat>, i: nat)
    | TakeWait(list: seq<nat>, i: nat)
    | Finished(outcome: Outcome)

  /// `removed`, `idle` and `busy` record what remove() and takeAll() handed
  /// back; `erased` and `taken` how an entry left the table; `raced` the erases
  /// that found their entry already gone.
  datatype State = State(
    heap: seq<Entry>, table: seq<nat>, pcs: seq<Pc>,
    removed: multiset<nat>, idle: multiset<nat>, busy: multiset<nat>,
    erased: set<nat>, taken: set<nat>, raced: set<nat>)

  datatype Step =
    | Insert(t: nat, id: string, value: Option<nat>)
    | With(t: nat, id: string)
    | ForEach(t: nat)
    | Remove(t: nat, id: string)
    | TakeAll(t: nat)
    | Advance(t: nat)
    | Expire(t: nat)

  predicate Valid(s: State) {
    forall i :: 0 <= i < |s.table| ==> s.table[i] < |s.heap|
  }

  /// findLocked(): the first entry in the table called `id`.
  function Find(heap: seq<Entry>, table: seq<nat>, id: string): (r: Option<nat>)
    requires forall i :: 0 <= i < |table| ==> table[i] < |heap|
    ensures r.Some? ==> r.value in table && r.value < |heap| && heap[r.value].id == id
    ensures r.None? ==> forall i :: 0 <= i < |table| ==> heap[table[i]].id != id
  {
    if table == [] then None
    else if heap[table[0]].id == id then Some(table[0])
    else Find(heap, table[1..], id)
  }

  /// entries_.erase(std::remove(...)): everything but `e`, in order.
  function Without(table: seq<nat>, e: nat): (r: seq<nat>)
    ensures forall x :: x in r <==> x in table && x != e
  {
    if table == [] then []
    else if table[0] == e then Without(table[1..], e)
    else [table[0]] + Without(table[1..], e)
  }

  function Goto(s: State, t: nat, pc: Pc): State
    requires t < |s.pcs|
  {
    s.(pcs := s.pcs[t := pc])
  }

  /// A thread starts an operation from rest; the first locked region of the
  /// operation runs in the same step.
  predicate AtRest(s: State, t: nat) {
    t < |s.pcs| && (s.pcs[t].Idle? || s.pcs[t].Finished?)
  }

  function Next(s: State, step: Step): Option<State>
    requires Valid(s)
  {
    if step.t >= |s.pcs| then None else
    match step
    case Insert(t, id, value) =>
      if !AtRest(s, t) then None
      else if Find(s.heap, s.table, id).Some? then Some(Goto(s, t, Finished(Inserted(false))))
      else Some(Goto(s, t, Finished(Inserted(true))).(
                heap := s.heap + [Entry(id, value, 0, false, false)],
                table := s.table + [|s.heap|]))
    case With(t, id) =>
      if !AtRest(s, t) then None
      else
        var found := Find(s.heap, s.table, id);
        Some(Goto(s, t, if found.None? || s.heap[found.value].value.None? then Finished(Missing)
                        else WithEnter(found.value)))
    case ForEach(t) =>
      if !AtRest(s, t) then None else Some(Goto(s, t, ForEachAt(s.table, 0)))
    case Remove(t, id) =>
      if !AtRest(s, t) then None
      else
        var found := Find(s.heap, s.table, id);
        Some(Goto(s, t, if found.None? then Finished(Missing) else RemoveClose(found.value)))
    case TakeAll(t) =>
      if !AtRest(s, t) then None
      else Some(Goto(s, t, TakeRetire(s.table, 0)).(
                  table := [], taken := s.taken + set i | 0 <= i < |s.table| :: s.table[i]))
    case Advance(t) =>
      match s.pcs[t] {
        case WithEnter(_) | WithInside(_) => AdvanceWith(s, t)
        case ForEachAt(_, _) | ForEachInside(_, _) => AdvanceForEach(s, t)
        case RemoveClose(_) | RemoveWait(_) | RemoveReopen(_) => AdvanceClose(s, t)
        case RemoveCheck(_) | RemoveErase(_) => AdvanceErase(s, t)
        case TakeRetire(_, _) | TakeClose(_, _) | TakeWait(_, _) => AdvanceTake(s, t)
        case _ => None
      }
    case Expire(t) => ExpireWait(s, t)
  }

  function AdvanceWith(s: State, t: nat): Option<State>
    requires t < |s.pcs|
  {
    match s.pcs[t]
    case WithEnter(e) =>
      if e >= |s.heap| then None
      else (match Entered(s.heap[e])
            case None => Some(Goto(s, t, Finished(Closing)))
            case Some(inside) => Some(Goto(s, t, WithInside(e)).(heap := s.heap[e := inside])))
    case WithInside(e) =>
      if e >= |s.heap| then None
      else Some(Goto(s, t, Finished(Done)).(heap := s.heap[e := Left(s.heap[e])]))
    case _ => None
  }

  function AdvanceForEach(s: State, t: nat): Option<State>
    requires t < |s.pcs|
  {
    match s.pcs[t]
    case ForEachAt(list, i) =>
      if i >= |list| then Some(Goto(s, t, Finished(Visited)))
      else if list[i] >= |s.heap| then None
      else if s.heap[list[i]].value.None? || Entered(s.heap[list[i]]).None? then
        Some(Goto(s, t, ForEachAt(list, i + 1)))
      else
        Some(Goto(s, t, ForEachInside(list, i)).(heap := s.heap[list[i] := Entered(s.heap[list[i]]).value]))
    case ForEachInside(list, i) =>
      if i >= |list| || list[i] >= |s.heap| then None
      else Some(Goto(s, t, ForEachAt(list, i + 1)).(heap := s.heap[list[i] := Left(s.heap[list[i]])]))
    case _ => None
  }

  function AdvanceClose(s: State, t: nat): Option<State>
    requires t < |s.pcs|
  {
    match s.pcs[t]
    case RemoveClose(e) =>
      if e >= |s.heap| then None
      else
        var (closed, how) := BeginClose(s.heap[e]);
        Some(Goto(s, t, match how
                        case Already => Finished(Removing)
                        case Empty => RemoveCheck(e)
                        case Waiting => RemoveWait(e)).(heap := s.heap[e := closed]))
    case RemoveWait(e) =>
      if e >= |s.heap| || s.heap[e].users != 0 then None else Some(Goto(s, t, RemoveCheck(e)))
    case RemoveReopen(e) =>
      if e >= |s.heap| then None
      else Some(Goto(s, t, Finished(Busy(e))).(heap := s.heap[e := Reopened(s.heap[e])]))
    case _ => None
  }

  function AdvanceErase(s: State, t: nat): Option<State>
    requires t < |s.pcs|
  {
    match s.pcs[t]
    case RemoveCheck(e) =>
      if e >= |s.heap| then None
      else Some(Goto(s, t, if s.heap[e].retired then Finished(Removing) else RemoveErase(e)))
    case RemoveErase(e) =>
      Some(Goto(s, t, Finished(Removed(e))).(
             table := Without(s.table, e),
             removed := s.removed + multiset{e},
             erased := if e in s.table then s.erased + {e} else s.erased,
             raced := if e in s.table then s.raced else s.raced + {e}))
    case _ => None
  }

  function AdvanceTake(s: State, t: nat): Option<State>
    requires t < |s.pcs|
  {
    match s.pcs[t]
    case TakeRetire(list, i) =>
      if i >= |list| then Some(Goto(s, t, Finished(Taken)))
      else if list[i] >= |s.heap| then None
      else Some(Goto(s, t, TakeClose(list, i)).(heap := s.heap[list[i] := Retire(s.heap[list[i]])]))
    case TakeClose(list, i) =>
      if i >= |list| || list[i] >= |s.heap| then None
      else
        var (closed, how) := BeginClose(s.heap[list[i]]);
        var after := s.(heap := s.heap[list[i] := closed]);
        (match how
         case Empty => Some(Goto(after, t, TakeRetire(list, i + 1)).(idle := s.idle + multiset{list[i]}))
         case Already => Some(Goto(after, t, TakeRetire(list, i + 1)).(busy := s.busy + multiset{list[i]}))
         case Waiting => Some(Goto(after, t, TakeWait(list, i))))
    case TakeWait(list, i) =>
      if i >= |list| || list[i] >= |s.heap| || s.heap[list[i]].users != 0 then None
      else Some(Goto(s, t, TakeRetire(list, i + 1)).(idle := s.idle + multiset{list[i]}))
    case _ => None
  }

  /// A waiter's deadline passes with calls still inside.
  function ExpireWait(s: State, t: nat): Option<State>
    requires t < |s.pcs|
  {
    match s.pcs[t]
    case RemoveWait(e) =>
      if e >= |s.heap| || s.heap[e].users == 0 then None else Some(Goto(s, t, RemoveReopen(e)))
    case TakeWait(list, i) =>
      if i >= |list| || list[i] >= |s.heap| || s.heap[list[i]].users == 0 then None
      else Some(Goto(s, t, TakeRetire(list, i + 1)).(busy := s.busy + multiset{list[i]}))
    case _ => None
  }

  // -------------------------------------------------------------- invariant

  function InsideOf(pc: Pc): Option<nat> {
    match pc
    case WithInside(e) => Some(e)
    case ForEachInside(list, i) => if i < |list| then Some(list[i]) else None
    case _ => None
  }

  /// The entry a removal has closed and may still reopen or erase.
  function HeldOf(pc: Pc): Option<nat> {
    match pc
    case RemoveWait(e) => Some(e)
    case RemoveReopen(e) => Some(e)
    case RemoveCheck(e) => Some(e)
    case RemoveErase(e) => Some(e)
    case _ => None
  }

  predicate TakePc(pc: Pc) { pc.TakeRetire? || pc.TakeClose? || pc.TakeWait? }

  /// How many threads are inside entry `e`.
  function Inside(pcs: seq<Pc>, e: nat): nat {
    if pcs == [] then 0
    else Inside(pcs[..|pcs| - 1], e) + if InsideOf(pcs[|pcs| - 1]) == Some(e) then 1 else 0
  }

  predicate ListPc(pc: Pc) { TakePc(pc) || pc.ForEachAt? || pc.ForEachInside? }

  predicate EntryPc(pc: Pc) {
    pc.WithEnter? || pc.WithInside? || pc.RemoveClose? || pc.RemoveWait? || pc.RemoveReopen?
    || pc.RemoveCheck? || pc.RemoveErase?
  }

  predicate RefOk(pc: Pc, n: nat) {
    && (EntryPc(pc) ==> pc.e < n)
    && (ListPc(pc) ==>
          && pc.i <= |pc.list| && (forall k :: 0 <= k < |pc.list| ==> pc.list[k] < n)
          && (pc.ForEachInside? || pc.TakeClose? || pc.TakeWait? ==> pc.i < |pc.list|))
  }

  /// What holds of a thread at `pc`. A removal that holds an entry has it
  /// closed; past the wait, nobody is inside it; past the retired check,
  /// nothing has handed it back. What takeAll() has still to hand back has not
  /// been handed back.
  ghost predicate ThreadOk(s: State, pc: Pc) {
    && RefOk(pc, |s.heap|)
    && (HeldOf(pc).Some? ==>
          && s.heap[pc.e].closing
          && (pc.RemoveCheck? || pc.RemoveErase? ==> s.heap[pc.e].users == 0)
          && (pc.e in s.removed ==> s.heap[pc.e].retired)
          && (pc.RemoveErase? ==> pc.e !in s.removed && pc.e !in s.busy))
    && (TakePc(pc) ==>
          && (forall k :: pc.i <= k < |pc.list| ==>
                pc.list[k] in s.taken && pc.list[k] !in s.idle && pc.list[k] !in s.busy)
          && Increasing(pc.list)
          && (pc.TakeClose? || pc.TakeWait? ==> s.heap[pc.list[pc.i]].retired)
          && (pc.TakeWait? ==> s.heap[pc.list[pc.i]].closing))
  }

  ghost predicate Increasing(list: seq<nat>) {
    |list| >= 2 ==> list[0] < list[1] && Increasing(list[1..])
  }

  lemma {:induction false} IncreasingAt(list: seq<nat>, j: nat, k: nat)
    requires Increasing(list) && j < k < |list|
    ensures list[j] < list[k]
  {
    if j > 0 {
      IncreasingAt(list[1..], j - 1, k - 1);
    } else if k > 1 {
      IncreasingAt(list[1..], 0, k - 1);
    }
  }

  lemma {:induction false} OrderedIncreasing(list: seq<nat>)
    requires forall i, j :: 0 <= i < j < |list| ==> list[i] < list[j]
    ensures Increasing(list)
  {
    if |list| >= 2 { OrderedIncreasing(list[1..]); }
  }

  /// Two removals hold the same entry only once takeAll() has retired it, and
  /// are never both past the retired check; nothing is taken twice.
  ghost predicate PairOk(heap: seq<Entry>, p: Pc, q: Pc) {
    && (HeldOf(p).Some? && HeldOf(p) == HeldOf(q) ==>
          p.e < |heap| && heap[p.e].retired && !(p.RemoveErase? && q.RemoveErase?))
    && (TakePc(p) && TakePc(q) ==>
          forall j, k :: p.i <= j < |p.list| && q.i <= k < |q.list| ==> p.list[j] != q.list[k])
  }

  /// What holds of entry `e`: it is in the table, or was erased, or was taken,
  /// and only one of those.
  ghost predicate EntryOk(s: State, e: nat)
    requires e < |s.heap|
  {
    && (e in s.table || e in s.erased || e in s.taken)
    && !(e in s.table && (e in s.erased || e in s.taken))
    && !(e in s.erased && e in s.taken)
    && (s.heap[e].retired ==> e in s.taken)
    && (e in s.erased || e in s.raced ==> e in s.removed)
    && (e in s.removed ==>
          && s.removed[e] == 1 && s.heap[e].closing && s.heap[e].users == 0
          && e !in s.table && e !in s.busy && (e in s.raced <==> e in s.taken))
    && (e in s.idle || e in s.busy ==> e in s.taken && s.heap[e].retired && s.idle[e] + s.busy[e] == 1)
    && (e in s.idle ==> s.heap[e].closing && s.heap[e].users == 0)
  }

  ghost predicate ThreadsOk(s: State) { forall t :: 0 <= t < |s.pcs| ==> ThreadOk(s, s.pcs[t]) }

  ghost predicate PairsOk(s: State) {
    forall t, u :: 0 <= t < |s.pcs| && 0 <= u < |s.pcs| && t != u ==> PairOk(s.heap, s.pcs[t], s.pcs[u])
  }

  ghost predicate EntriesOk(s: State) {
    && (forall e :: 0 <= e < |s.heap| ==> EntryOk(s, e))
    && (forall e :: e in s.table || e in s.erased || e in s.taken || e in s.raced || e in s.removed || e in s.idle || e in s.busy
          ==> e < |s.heap|)
  }

  ghost predicate UsersOk(s: State) {
    forall e :: 0 <= e < |s.heap| ==> s.heap[e].users == Inside(s.pcs, e)
  }

  /// Ids are unique, and the table keeps insertion order.
  ghost predicate TableOk(s: State) {
    && Valid(s)
    && (forall i, j :: 0 <= i < j < |s.table| ==> s.table[i] < s.table[j])
    && (forall i, j :: 0 <= i < j < |s.table| ==> s.heap[s.table[i]].id != s.heap[s.table[j]].id)
  }

  ghost predicate Pending(pc: Pc, e: nat) {
    TakePc(pc) && exists k :: pc.i <= k < |pc.list| && pc.list[k] == e
  }

  /// Nothing taken is lost: it has been handed back, or some takeAll() still
  /// has it on its list.
  ghost predicate TakenOk(s: State) {
    forall e :: e in s.taken ==> e in s.idle || e in s.busy || exists t :: 0 <= t < |s.pcs| && Pending(s.pcs[t], e)
  }

  ghost predicate Inv(s: State) {
    TableOk(s) && ThreadsOk(s) && PairsOk(s) && EntriesOk(s) && UsersOk(s) && TakenOk(s)
  }

  /// An empty table and `threads` threads at rest.
  function Init(threads: nat): State {
    State([], [], seq(threads, i => Idle), multiset{}, multiset{}, multiset{}, {}, {}, {})
  }

  // ---------------------------------------------------------- preservation

  lemma {:induction false} InsideUpdate(pcs: seq<Pc>, t: nat, pc: Pc, e: nat)
    requires t < |pcs|
    ensures Inside(pcs[t := pc], e)
         == Inside(pcs, e) - (if InsideOf(pcs[t]) == Some(e) then 1 else 0) + (if InsideOf(pc) == Some(e) then 1 else 0)
  {
    var n := |pcs| - 1;
    if t == n {
      assert pcs[t := pc][..n] == pcs[..n];
    } else {
      assert pcs[t := pc][..n] == pcs[..n][t := pc];
      InsideUpdate(pcs[..n], t, pc, e);
    }
  }

  lemma InsideUpdateAll(pcs: seq<Pc>, t: nat, pc: Pc)
    requires t < |pcs|
    ensures forall e: nat ::
      Inside(pcs[t := pc], e) == Inside(pcs, e) - (if InsideOf(pcs[t]) == Some(e) then 1 else 0) + (if InsideOf(pc) == Some(e) then 1 else 0)
  {
    forall e: nat
      ensures Inside(pcs[t := pc], e)
           == Inside(pcs, e) - (if InsideOf(pcs[t]) == Some(e) then 1 else 0) + (if InsideOf(pc) == Some(e) then 1 else 0)
    {
      InsideUpdate(pcs, t, pc, e);
    }
  }

  lemma {:induction false} InsidePositive(pcs: seq<Pc>, t: nat, e: nat)
    requires t < |pcs| && InsideOf(pcs[t]) == Some(e)
    ensures Inside(pcs, e) > 0
  {
    if t < |pcs| - 1 { InsidePositive(pcs[..|pcs| - 1], t, e); }
  }

  lemma {:induction false} NobodyInside(pcs: seq<Pc>, e: nat)
    requires forall t :: 0 <= t < |pcs| ==> InsideOf(pcs[t]) != Some(e)
    ensures Inside(pcs, e) == 0
  {
    if pcs != [] { NobodyInside(pcs[..|pcs| - 1], e); }
  }

  lemma {:induction false} WithoutKeepsOrder(table: seq<nat>, e: nat)
    requires forall i, j :: 0 <= i < j < |table| ==> table[i] < table[j]
    ensures forall i, j :: 0 <= i < j < |Without(table, e)| ==> Without(table, e)[i] < Without(table, e)[j]
  {
    if table != [] {
      WithoutKeepsOrder(table[1..], e);
      var rest := Without(table[1..], e);
      forall j | 0 <= j < |rest| ensures table[0] < rest[j] { assert rest[j] in table[1..]; }
    }
  }

  lemma PairSymmetric(heap: seq<Entry>, p: Pc, q: Pc)
    requires PairOk(heap, p, q)
    ensures PairOk(heap, q, p)
  {
  }

  /// A step that only moves thread `t`.
  lemma GotoKeeps(s: State, t: nat, pc: Pc)
    requires Inv(s) && t < |s.pcs| && ThreadOk(s, pc)
    requires forall u :: 0 <= u < |s.pcs| && u != t ==> PairOk(s.heap, pc, s.pcs[u])
    requires InsideOf(pc) == InsideOf(s.pcs[t])
    requires forall x :: Pending(s.pcs[t], x) ==> Pending(pc, x)
    ensures Inv(Goto(s, t, pc))
  {
    var s' := Goto(s, t, pc);
    assert ThreadsOk(s') by {
      forall u | 0 <= u < |s.pcs| ensures ThreadOk(s', s'.pcs[u]) {
        assert ThreadOk(s, s'.pcs[u]);
      }
    }
    assert PairsOk(s') by { PairsMove(s, s', t); }
    assert EntriesOk(s') by {
      forall e | 0 <= e < |s.heap| ensures EntryOk(s', e) { assert EntryOk(s, e); }
    }
    assert UsersOk(s') by { InsideUpdateAll(s.pcs, t, pc); }
    assert TakenOk(s') by { TakenMove(s, s', t); }
  }

  lemma PairsMove(s: State, s': State, t: nat)
    requires PairsOk(s) && t < |s.pcs| && |s'.heap| >= |s.heap|
    requires |s'.pcs| == |s.pcs| && forall u :: 0 <= u < |s.pcs| && u != t ==> s'.pcs[u] == s.pcs[u]
    requires forall e :: 0 <= e < |s.heap| && s.heap[e].retired ==> s'.heap[e].retired
    requires forall u :: 0 <= u < |s.pcs| && u != t ==> PairOk(s'.heap, s'.pcs[t], s.pcs[u])
    ensures PairsOk(s')
  {
    forall u, v | 0 <= u < |s.pcs| && 0 <= v < |s.pcs| && u != v ensures PairOk(s'.heap, s'.pcs[u], s'.pcs[v]) {
      if v == t {
        PairSymmetric(s'.heap, s'.pcs[t], s.pcs[u]);
      } else if u != t {
        assert PairOk(s.heap, s.pcs[u], s.pcs[v]);
      }
    }
  }

  lemma TakenMove(s: State, s': State, t: nat)
    requires TakenOk(s) && t < |s.pcs| && s'.taken == s.taken && s.idle <= s'.idle && s.busy <= s'.busy
    requires |s'.pcs| == |s.pcs| && forall u :: 0 <= u < |s.pcs| && u != t ==> s'.pcs[u] == s.pcs[u]
    requires forall x :: Pending(s.pcs[t], x) ==> Pending(s'.pcs[t], x) || x in s'.idle || x in s'.busy
    ensures TakenOk(s')
  {
    forall e | e in s'.taken && e !in s'.idle && e !in s'.busy
      ensures exists u :: 0 <= u < |s'.pcs| && Pending(s'.pcs[u], e)
    {
      var u :| 0 <= u < |s.pcs| && Pending(s.pcs[u], e);
      assert Pending(s'.pcs[u], e);
    }
  }

  /// The shape of every step on one entry `e` by a thread `t`, and what makes
  /// it harmless to the other threads: a closed entry is reopened only by the
  /// one removal that holds it, nobody enters a closed entry, and a hand-back
  /// of `e` is made only by the thread whose turn it is.
  ghost predicate Touches(s: State, s': State, t: nat, e: nat) {
    && t < |s.pcs| && e < |s.heap|
    && |s'.heap| == |s.heap| && s'.heap == s.heap[e := s'.heap[e]]
    && |s'.pcs| == |s.pcs| && s'.pcs == s.pcs[t := s'.pcs[t]]
    && s'.heap[e].id == s.heap[e].id
    && (s.heap[e].retired ==> s'.heap[e].retired)
    && s'.taken == s.taken && s'.table == s.table && s'.erased == s.erased
    && s'.raced == s.raced && s'.removed == s.removed
    && (s'.idle == s.idle || (s'.idle == s.idle + multiset{e} && Pending(s.pcs[t], e)))
    && (s'.busy == s.busy || (s'.busy == s.busy + multiset{e} && Pending(s.pcs[t], e) && s.heap[e].users != 0))
    && (s'.heap[e].closing || !s.heap[e].closing || (!s.heap[e].retired && HeldOf(s.pcs[t]) == Some(e)))
    && (s'.heap[e].users == 0 || s.heap[e].users != 0 || !s.heap[e].closing)
  }

  lemma TouchKeepsOthers(s: State, s': State, t: nat, e: nat)
    requires ThreadsOk(s) && PairsOk(s) && Touches(s, s', t, e)
    ensures forall u :: 0 <= u < |s.pcs| && u != t ==> ThreadOk(s', s'.pcs[u])
  {
    forall u | 0 <= u < |s.pcs| && u != t ensures ThreadOk(s', s'.pcs[u]) {
      var pc := s.pcs[u];
      assert ThreadOk(s, pc) && PairOk(s.heap, s.pcs[t], pc);
      assert TakePc(pc) && Pending(s.pcs[t], e) ==> forall k :: pc.i <= k < |pc.list| ==> pc.list[k] != e;
      assert RefOk(pc, |s'.heap|);
    }
  }

  lemma TouchKeepsEntries(s: State, s': State, t: nat, e: nat)
    requires EntriesOk(s) && Touches(s, s', t, e) && EntryOk(s', e)
    ensures EntriesOk(s')
  {
    forall x | 0 <= x < |s.heap| ensures EntryOk(s', x) { assert EntryOk(s, x); }
  }

  lemma TouchKeepsUsers(s: State, s': State, t: nat, e: nat)
    requires UsersOk(s) && Touches(s, s', t, e)
    requires InsideOf(s.pcs[t]) == None || InsideOf(s.pcs[t]) == Some(e)
    requires InsideOf(s'.pcs[t]) == None || InsideOf(s'.pcs[t]) == Some(e)
    requires s'.heap[e].users == s.heap[e].users - (if InsideOf(s.pcs[t]) == Some(e) then 1 else 0)
                                                 + (if InsideOf(s'.pcs[t]) == Some(e) then 1 else 0)
    ensures UsersOk(s')
  {
    InsideUpdateAll(s.pcs, t, s'.pcs[t]);
  }

  lemma TouchKeepsThreads(s: State, s': State, t: nat, e: nat)
    requires ThreadsOk(s) && PairsOk(s) && Touches(s, s', t, e) && ThreadOk(s', s'.pcs[t])
    ensures ThreadsOk(s')
  {
    TouchKeepsOthers(s, s', t, e);
  }

  lemma TouchKeepsPairs(s: State, s': State, t: nat, e: nat)
    requires PairsOk(s) && Touches(s, s', t, e)
    requires forall u :: 0 <= u < |s.pcs| && u != t ==> PairOk(s'.heap, s'.pcs[t], s.pcs[u])
    ensures PairsOk(s')
  {
    PairsMove(s, s', t);
  }

  lemma TouchKeepsTaken(s: State, s': State, t: nat, e: nat)
    requires TakenOk(s) && Touches(s, s', t, e)
    requires forall x :: Pending(s.pcs[t], x) ==> Pending(s'.pcs[t], x) || x in s'.idle || x in s'.busy
    ensures TakenOk(s')
  {
    TakenMove(s, s', t);
  }

  lemma TouchKeepsTable(s: State, s': State, t: nat, e: nat)
    requires TableOk(s) && Touches(s, s', t, e)
    ensures TableOk(s')
  {
  }

  lemma TouchKeeps(s: State, s': State, t: nat, e: nat)
    requires Inv(s) && Touches(s, s', t, e)
    requires ThreadOk(s', s'.pcs[t]) && EntryOk(s', e)
    requires forall u :: 0 <= u < |s.pcs| && u != t ==> PairOk(s'.heap, s'.pcs[t], s.pcs[u])
    requires InsideOf(s.pcs[t]) == None || InsideOf(s.pcs[t]) == Some(e)
    requires InsideOf(s'.pcs[t]) == None || InsideOf(s'.pcs[t]) == Some(e)
    requires s'.heap[e].users == s.heap[e].users - (if InsideOf(s.pcs[t]) == Some(e) then 1 else 0)
                                                 + (if InsideOf(s'.pcs[t]) == Some(e) then 1 else 0)
    requires forall x :: Pending(s.pcs[t], x) ==> Pending(s'.pcs[t], x) || x in s'.idle || x in s'.busy
    ensures Inv(s')
  {
    TouchKeepsThreads(s, s', t, e);
    TouchKeepsPairs(s, s', t, e);
    TouchKeepsEntries(s, s', t, e);
    TouchKeepsUsers(s, s', t, e);
    TouchKeepsTaken(s, s', t, e);
    TouchKeepsTable(s, s', t, e);
  }

  lemma InitHolds(threads: nat)
    ensures Inv(Init(threads))
  {
    var s := Init(threads);
    assert TableOk(s) && ThreadsOk(s) && UsersOk(s) && TakenOk(s) && EntriesOk(s);
  }

  /// Threads at rest, or looking, meet no other thread's claims.
  lemma PlainPairs(s: State, pc: Pc)
    requires HeldOf(pc).None? && !TakePc(pc)
    ensures forall u :: 0 <= u < |s.pcs| ==> PairOk(s.heap, pc, s.pcs[u])
  {
  }

  lemma WithKeeps(s: State, t: nat)
    requires Inv(s) && t < |s.pcs| && AdvanceWith(s, t).Some?
    ensures Inv(AdvanceWith(s, t).value)
  {
    var s' := AdvanceWith(s, t).value;
    var e := s.pcs[t].e;
    assert ThreadOk(s, s.pcs[t]) && EntryOk(s, e);
    PlainPairs(s', s'.pcs[t]);
    if s.pcs[t].WithInside? { InsidePositive(s.pcs, t, e); }
    if s'.heap == s.heap {
      GotoKeeps(s, t, s'.pcs[t]);
    } else {
      TouchKeeps(s, s', t, e);
    }
  }

  lemma ForEachKeeps(s: State, t: nat)
    requires Inv(s) && t < |s.pcs| && AdvanceForEach(s, t).Some?
    ensures Inv(AdvanceForEach(s, t).value)
  {
    var s' := AdvanceForEach(s, t).value;
    assert ThreadOk(s, s.pcs[t]);
    PlainPairs(s', s'.pcs[t]);
    if s'.heap == s.heap {
      GotoKeeps(s, t, s'.pcs[t]);
    } else {
      ForEachTouches(s, s', t);
      TouchKeeps(s, s', t, s.pcs[t].list[s.pcs[t].i]);
    }
  }

  lemma ForEachTouches(s: State, s': State, t: nat)
    requires Inv(s) && t < |s.pcs| && AdvanceForEach(s, t) == Some(s') && s'.heap != s.heap
    ensures s.pcs[t].i < |s.pcs[t].list|
    ensures var e := s.pcs[t].list[s.pcs[t].i];
            && Touches(s, s', t, e) && EntryOk(s', e) && ThreadOk(s', s'.pcs[t])
            && (InsideOf(s.pcs[t]) == None || InsideOf(s.pcs[t]) == Some(e))
            && (InsideOf(s'.pcs[t]) == None || InsideOf(s'.pcs[t]) == Some(e))
            && s'.heap[e].users == s.heap[e].users - (if InsideOf(s.pcs[t]) == Some(e) then 1 else 0)
                                                   + (if InsideOf(s'.pcs[t]) == Some(e) then 1 else 0)
            && !TakePc(s.pcs[t])
  {
    assert ThreadOk(s, s.pcs[t]);
    var e := s.pcs[t].list[s.pcs[t].i];
    assert EntryOk(s, e);
    if s.pcs[t].ForEachInside? { InsidePositive(s.pcs, t, e); }
  }

  /// A removal shutting the door: nobody else holds an entry that is open.
  lemma BeginCloseKeeps(s: State, t: nat)
    requires Inv(s) && t < |s.pcs| && s.pcs[t].RemoveClose? && AdvanceClose(s, t).Some?
    ensures Inv(AdvanceClose(s, t).value)
  {
    var s' := AdvanceClose(s, t).value;
    var e := s.pcs[t].e;
    assert ThreadOk(s, s.pcs[t]) && EntryOk(s, e);
    BeginCloseThread(s, s', t, e);
    BeginClosePairs(s, s', t, e);
    TouchKeeps(s, s', t, e);
  }

  lemma BeginCloseThread(s: State, s': State, t: nat, e: nat)
    requires t < |s.pcs| && s.pcs[t] == RemoveClose(e) && ThreadOk(s, s.pcs[t]) && EntryOk(s, e)
    requires AdvanceClose(s, t) == Some(s')
    ensures Touches(s, s', t, e) && EntryOk(s', e) && ThreadOk(s', s'.pcs[t])
    ensures s'.heap[e].users == s.heap[e].users && InsideOf(s'.pcs[t]).None? && !TakePc(s'.pcs[t])
    ensures HeldOf(s'.pcs[t]).Some? ==>
        HeldOf(s'.pcs[t]) == Some(e) && !s'.pcs[t].RemoveErase? && (s.heap[e].retired || !s.heap[e].closing)
  {
  }

  lemma BeginClosePairs(s: State, s': State, t: nat, e: nat)
    requires ThreadsOk(s) && Touches(s, s', t, e) && !TakePc(s'.pcs[t])
    requires HeldOf(s'.pcs[t]).Some? ==>
        HeldOf(s'.pcs[t]) == Some(e) && !s'.pcs[t].RemoveErase? && (s.heap[e].retired || !s.heap[e].closing)
    ensures forall u :: 0 <= u < |s.pcs| && u != t ==> PairOk(s'.heap, s'.pcs[t], s.pcs[u])
  {
    forall u | 0 <= u < |s.pcs| && u != t ensures PairOk(s'.heap, s'.pcs[t], s.pcs[u]) {
      assert ThreadOk(s, s.pcs[u]);
    }
  }

  lemma ReopenKeeps(s: State, t: nat)
    requires Inv(s) && t < |s.pcs| && s.pcs[t].RemoveReopen? && AdvanceClose(s, t).Some?
    ensures Inv(AdvanceClose(s, t).value)
  {
    var s' := AdvanceClose(s, t).value;
    var e := s.pcs[t].e;
    assert ThreadOk(s, s.pcs[t]) && EntryOk(s, e);
    PlainPairs(s', s'.pcs[t]);
    TouchKeeps(s, s', t, e);
  }

  lemma CloseKeeps(s: State, t: nat)
    requires Inv(s) && t < |s.pcs| && AdvanceClose(s, t).Some?
    ensures Inv(AdvanceClose(s, t).value)
  {
    var pc := s.pcs[t];
    if pc.RemoveClose? {
      BeginCloseKeeps(s, t);
    } else if pc.RemoveReopen? {
      ReopenKeeps(s, t);
    } else {
      assert ThreadOk(s, pc);
      var pc' := RemoveCheck(pc.e);
      forall u | 0 <= u < |s.pcs| && u != t ensures PairOk(s.heap, pc', s.pcs[u]) {
        assert PairOk(s.heap, pc, s.pcs[u]);
      }
      GotoKeeps(s, t, pc');
    }
  }

  lemma ExpireKeeps(s: State, t: nat)
    requires Inv(s) && t < |s.pcs| && ExpireWait(s, t).Some?
    ensures Inv(ExpireWait(s, t).value)
  {
    var s' := ExpireWait(s, t).value;
    var pc := s.pcs[t];
    assert ThreadOk(s, pc);
    forall u | 0 <= u < |s.pcs| && u != t ensures PairOk(s'.heap, s'.pcs[t], s.pcs[u]) {
      assert PairOk(s.heap, pc, s.pcs[u]);
    }
    if pc.RemoveWait? {
      GotoKeeps(s, t, s'.pcs[t]);
    } else {
      TakeStepKeeps(s, s', t);
    }
  }

  /// takeAll() moving on its current entry.
  lemma TakeStepKeeps(s: State, s': State, t: nat)
    requires Inv(s) && t < |s.pcs| && TakePc(s.pcs[t]) && s.pcs[t].i < |s.pcs[t].list|
    requires AdvanceTake(s, t) == Some(s') || ExpireWait(s, t) == Some(s')
    ensures Inv(s')
  {
    TakeStepTouches(s, s', t);
    TouchKeeps(s, s', t, s.pcs[t].list[s.pcs[t].i]);
  }

  lemma TakeStepTouches(s: State, s': State, t: nat)
    requires Inv(s) && t < |s.pcs| && TakePc(s.pcs[t]) && s.pcs[t].i < |s.pcs[t].list|
    requires AdvanceTake(s, t) == Some(s') || ExpireWait(s, t) == Some(s')
    ensures var e := s.pcs[t].list[s.pcs[t].i];
            && Touches(s, s', t, e) && EntryOk(s', e) && ThreadOk(s', s'.pcs[t])
            && s'.heap[e].users == s.heap[e].users && TakePc(s'.pcs[t])
    ensures forall u :: 0 <= u < |s.pcs| && u != t ==> PairOk(s'.heap, s'.pcs[t], s.pcs[u])
    ensures forall x :: Pending(s.pcs[t], x) ==> Pending(s'.pcs[t], x) || x in s'.idle || x in s'.busy
  {
    var pc := s.pcs[t];
    assert ThreadOk(s, pc);
    var e := pc.list[pc.i];
    assert Pending(pc, e) && EntryOk(s, e);
    TakeStepEntry(s, s', t, e);
    TakeStepThread(s, s', t, e);
    TakeStepPairs(s, s', t);
  }

  lemma TakeStepPairs(s: State, s': State, t: nat)
    requires PairsOk(s) && t < |s.pcs| && |s'.pcs| == |s.pcs|
    requires TakePc(s.pcs[t]) && TakePc(s'.pcs[t]) && s'.pcs[t].list == s.pcs[t].list && s.pcs[t].i <= s'.pcs[t].i
    ensures forall u :: 0 <= u < |s.pcs| && u != t ==> PairOk(s'.heap, s'.pcs[t], s.pcs[u])
  {
    forall u | 0 <= u < |s.pcs| && u != t ensures PairOk(s'.heap, s'.pcs[t], s.pcs[u]) {
      assert PairOk(s.heap, s.pcs[t], s.pcs[u]);
    }
  }

  ghost predicate OneMore(s: State, s': State, e: nat) {
    || (s'.idle == s.idle + multiset{e} && s'.busy == s.busy)
    || (s'.idle == s.idle && s'.busy == s.busy + multiset{e})
  }

  lemma TakeStepMoves(s: State, s': State, t: nat, e: nat)
    requires t < |s.pcs| && TakePc(s.pcs[t]) && s.pcs[t].i < |s.pcs[t].list| && e == s.pcs[t].list[s.pcs[t].i]
    requires AdvanceTake(s, t) == Some(s') || ExpireWait(s, t) == Some(s')
    ensures |s'.pcs| == |s.pcs| && TakePc(s'.pcs[t]) && s'.pcs[t].list == s.pcs[t].list && s.pcs[t].i <= s'.pcs[t].i
    ensures e < |s.heap| && |s'.heap| == |s.heap| && s'.taken == s.taken && s'.removed == s.removed
    ensures (s'.pcs[t].i == s.pcs[t].i && s'.idle == s.idle && s'.busy == s.busy && (s'.pcs[t].TakeClose? || s'.pcs[t].TakeWait?)
             && (s'.pcs[t].TakeClose? ==> s'.heap[e].retired)
             && (s'.pcs[t].TakeWait? ==>
                   s'.heap[e].closing && s'.heap[e].retired == s.heap[e].retired && !s.pcs[t].TakeRetire?))
         || (s'.pcs[t] == TakeRetire(s.pcs[t].list, s.pcs[t].i + 1) && OneMore(s, s', e))
  {
  }

  lemma TakeStepThread(s: State, s': State, t: nat, e: nat)
    requires t < |s.pcs| && ThreadOk(s, s.pcs[t]) && TakePc(s.pcs[t]) && s.pcs[t].i < |s.pcs[t].list|
    requires e == s.pcs[t].list[s.pcs[t].i]
    requires AdvanceTake(s, t) == Some(s') || ExpireWait(s, t) == Some(s')
    ensures ThreadOk(s', s'.pcs[t])
    ensures TakePc(s'.pcs[t]) && s'.pcs[t].list == s.pcs[t].list && s.pcs[t].i <= s'.pcs[t].i
    ensures forall x :: Pending(s.pcs[t], x) ==> Pending(s'.pcs[t], x) || x in s'.idle || x in s'.busy
  {
    TakeStepMoves(s, s', t, e);
    TakeStepPending(s, s', s.pcs[t], s'.pcs[t], e);
  }

  /// An entry pending stays so, or is the one whose turn it was.
  lemma PendingMoves(pc: Pc, pc': Pc, x: nat)
    requires Pending(pc, x) && TakePc(pc') && pc'.list == pc.list && pc.i <= pc'.i <= pc.i + 1
    ensures Pending(pc', x) || (pc.i < |pc.list| && pc.list[pc.i] == x)
  {
    var k :| pc.i <= k < |pc.list| && pc.list[k] == x;
    if k >= pc'.i { assert pc'.list[k] == x; }
  }

  lemma TakeStepPending(s: State, s': State, pc: Pc, pc': Pc, e: nat)
    requires ThreadOk(s, pc) && TakePc(pc) && pc.i < |pc.list| && e == pc.list[pc.i]
    requires TakePc(pc') && pc'.list == pc.list
    requires e < |s.heap| && |s'.heap| == |s.heap| && s'.taken == s.taken && s'.removed == s.removed
    requires (pc'.i == pc.i && s'.idle == s.idle && s'.busy == s.busy && (pc'.TakeClose? || pc'.TakeWait?)
              && (pc'.TakeClose? ==> s'.heap[e].retired)
              && (pc'.TakeWait? ==> s'.heap[e].closing && s'.heap[e].retired == s.heap[e].retired && !pc.TakeRetire?))
          || (pc' == TakeRetire(pc.list, pc.i + 1) && OneMore(s, s', e))
    ensures ThreadOk(s', pc')
    ensures forall x :: Pending(pc, x) ==> Pending(pc', x) || x in s'.idle || x in s'.busy
  {
    forall x | Pending(pc, x) ensures Pending(pc', x) || x in s'.idle || x in s'.busy {
      PendingMoves(pc, pc', x);
    }
    assert RefOk(pc', |s'.heap|);
    forall k | pc'.i <= k < |pc.list|
      ensures pc.list[k] in s'.taken && pc.list[k] !in s'.idle && pc.list[k] !in s'.busy
    {
      if k > pc.i { IncreasingAt(pc.list, pc.i, k); }
    }
  }

  lemma TakeStepEntry(s: State, s': State, t: nat, e: nat)
    requires Valid(s) && t < |s.pcs| && ThreadOk(s, s.pcs[t]) && TakePc(s.pcs[t]) && s.pcs[t].i < |s.pcs[t].list|
    requires e == s.pcs[t].list[s.pcs[t].i] && EntryOk(s, e)
    requires AdvanceTake(s, t) == Some(s') || ExpireWait(s, t) == Some(s')
    ensures Touches(s, s', t, e) && EntryOk(s', e)
    ensures s'.heap[e].users == s.heap[e].users
  {
    assert Pending(s.pcs[t], e);
  }

  lemma TakeKeeps(s: State, t: nat)
    requires Inv(s) && t < |s.pcs| && AdvanceTake(s, t).Some?
    ensures Inv(AdvanceTake(s, t).value)
  {
    var s' := AdvanceTake(s, t).value;
    assert ThreadOk(s, s.pcs[t]);
    if s.pcs[t].i < |s.pcs[t].list| {
      TakeStepKeeps(s, s', t);
    } else {
      PlainPairs(s', s'.pcs[t]);
      GotoKeeps(s, t, s'.pcs[t]);
    }
  }

  // The erase: the one step that changes the table and hands an entry back.

  lemma EraseThread(s: State, s': State, t: nat, e: nat)
    requires Valid(s) && t < |s.pcs| && s.pcs[t] == RemoveErase(e) && ThreadOk(s, s.pcs[t]) && EntryOk(s, e)
    requires AdvanceErase(s, t) == Some(s')
    ensures EntryOk(s', e)
    ensures s'.pcs[t] == Finished(Removed(e))
  {
  }

  lemma EraseKeepsOthers(s: State, s': State, t: nat, e: nat)
    requires t < |s.pcs| && s.pcs[t] == RemoveErase(e) && ThreadsOk(s) && PairsOk(s)
    requires AdvanceErase(s, t) == Some(s')
    ensures ThreadsOk(s')
  {
    forall u | 0 <= u < |s.pcs| ensures ThreadOk(s', s'.pcs[u]) {
      assert ThreadOk(s, s.pcs[u]) && ThreadOk(s, s.pcs[t]);
      if u != t { assert PairOk(s.heap, s.pcs[t], s.pcs[u]); }
    }
  }

  lemma EraseKeepsEntries(s: State, s': State, t: nat, e: nat)
    requires Valid(s) && t < |s.pcs| && s.pcs[t] == RemoveErase(e) && EntriesOk(s) && ThreadOk(s, s.pcs[t])
    requires AdvanceErase(s, t) == Some(s')
    ensures EntriesOk(s')
  {
    assert EntryOk(s, e);
    EraseThread(s, s', t, e);
    forall x | 0 <= x < |s.heap| ensures EntryOk(s', x) {
      assert EntryOk(s, x);
    }
  }

  lemma EraseKeepsTable(s: State, e: nat)
    requires TableOk(s)
    ensures TableOk(s.(table := Without(s.table, e)))
  {
    var table := Without(s.table, e);
    WithoutKeepsOrder(s.table, e);
    forall i | 0 <= i < |table| ensures table[i] < |s.heap| { assert table[i] in table; }
    forall i, j | 0 <= i < j < |table| ensures s.heap[table[i]].id != s.heap[table[j]].id {
      assert table[i] in table && table[j] in table;
      assert table[i] in s.table && table[j] in s.table && table[i] < table[j];
    }
  }

  lemma EraseKeeps(s: State, t: nat)
    requires Inv(s) && t < |s.pcs| && s.pcs[t].RemoveErase? && AdvanceErase(s, t).Some?
    ensures Inv(AdvanceErase(s, t).value)
  {
    var s', e := AdvanceErase(s, t).value, s.pcs[t].e;
    assert ThreadOk(s, s.pcs[t]);
    assert TableOk(s') by { EraseKeepsTable(s, e); assert TableOk(s.(table := Without(s.table, e))); }
    assert ThreadsOk(s') by { EraseKeepsOthers(s, s', t, e); }
    assert PairsOk(s') by { PlainPairs(s', s'.pcs[t]); PairsMove(s, s', t); }
    assert EntriesOk(s') by { EraseKeepsEntries(s, s', t, e); }
    assert UsersOk(s') by { InsideUpdateAll(s.pcs, t, s'.pcs[t]); }
    assert TakenOk(s') by { TakenMove(s, s', t); }
  }

  lemma CheckKeeps(s: State, t: nat)
    requires Inv(s) && t < |s.pcs| && s.pcs[t].RemoveCheck? && AdvanceErase(s, t).Some?
    ensures Inv(AdvanceErase(s, t).value)
  {
    var s', pc := AdvanceErase(s, t).value, s.pcs[t];
    assert ThreadOk(s, pc) && EntryOk(s, pc.e);
    forall u | 0 <= u < |s.pcs| && u != t ensures PairOk(s.heap, s'.pcs[t], s.pcs[u]) {
      assert PairOk(s.heap, pc, s.pcs[u]);
    }
    GotoKeeps(s, t, s'.pcs[t]);
  }

  // Starting an operation.

  lemma InsertKeeps(s: State, step: Step)
    requires Inv(s) && step.Insert? && Next(s, step).Some?
    ensures Inv(Next(s, step).value)
  {
    var t, s' := step.t, Next(s, step).value;
    PlainPairs(s', s'.pcs[t]);
    if s'.heap == s.heap {
      GotoKeeps(s, t, s'.pcs[t]);
    } else {
      assert s'.table[|s.table|] == |s.heap|;
      assert TableOk(s') by { forall i | 0 <= i < |s.table| ensures s.heap[s.table[i]].id != step.id {} }
      assert ThreadsOk(s') by { InsertKeepsThreads(s, s', t); }
      assert PairsOk(s') by { PairsMove(s, s', t); }
      assert EntriesOk(s') by { InsertKeepsEntries(s, s'); }
      assert UsersOk(s') by { InsertKeepsUsers(s, s', t); }
      assert TakenOk(s') by { TakenMove(s, s', t); }
    }
  }

  lemma InsertKeepsUsers(s: State, s': State, t: nat)
    requires ThreadsOk(s) && UsersOk(s) && t < |s.pcs| && AtRest(s, t)
    requires |s'.heap| == |s.heap| + 1 && s'.heap[..|s.heap|] == s.heap && s'.heap[|s.heap|].users == 0
    requires s'.pcs == s.pcs[t := Finished(Inserted(true))]
    ensures UsersOk(s')
  {
    InsideUpdateAll(s.pcs, t, s'.pcs[t]);
    forall u | 0 <= u < |s'.pcs| ensures InsideOf(s'.pcs[u]) != Some(|s.heap|) {
      if u != t { assert ThreadOk(s, s.pcs[u]); }
    }
    NobodyInside(s'.pcs, |s.heap|);
    forall e | 0 <= e < |s.heap| ensures s'.heap[e] == s.heap[e] { assert s'.heap[e] == s'.heap[..|s.heap|][e]; }
  }

  lemma InsertKeepsThreads(s: State, s': State, t: nat)
    requires ThreadsOk(s) && EntriesOk(s) && t < |s.pcs| && AtRest(s, t)
    requires |s'.heap| == |s.heap| + 1 && s'.heap[..|s.heap|] == s.heap
    requires s'.pcs == s.pcs[t := Finished(Inserted(true))]
    requires s'.taken == s.taken && s'.idle == s.idle && s'.busy == s.busy && s'.removed == s.removed
    ensures ThreadsOk(s')
  {
    forall u | 0 <= u < |s'.pcs| ensures ThreadOk(s', s'.pcs[u]) {
      var pc := s.pcs[u];
      assert ThreadOk(s, pc);
      forall e | 0 <= e < |s.heap| ensures s'.heap[e] == s.heap[e] { assert s'.heap[e] == s'.heap[..|s.heap|][e]; }
    }
  }

  lemma InsertKeepsEntries(s: State, s': State)
    requires EntriesOk(s) && |s'.heap| == |s.heap| + 1 && s'.heap[..|s.heap|] == s.heap
    requires s'.table == s.table + [|s.heap|] && !s'.heap[|s.heap|].retired
    requires s'.taken == s.taken && s'.erased == s.erased && s'.raced == s.raced
    requires s'.idle == s.idle && s'.busy == s.busy && s'.removed == s.removed
    ensures EntriesOk(s')
  {
    forall e | 0 <= e < |s'.heap| ensures EntryOk(s', e) {
      if e < |s.heap| {
        assert EntryOk(s, e) && s'.heap[e] == s'.heap[..|s.heap|][e];
      }
    }
  }

  lemma TakeAllKeepsPairs(s: State, s': State, t: nat)
    requires ThreadsOk(s) && EntriesOk(s) && Valid(s)
    requires t < |s'.pcs| && s'.pcs[t] == TakeRetire(s.table, 0)
    ensures forall u :: 0 <= u < |s.pcs| && u != t ==> PairOk(s'.heap, s'.pcs[t], s.pcs[u])
  {
    forall u | 0 <= u < |s.pcs| && u != t ensures PairOk(s'.heap, s'.pcs[t], s.pcs[u]) {
      assert ThreadOk(s, s.pcs[u]);
      if TakePc(s.pcs[u]) {
        forall j, k | 0 <= j < |s.table| && s.pcs[u].i <= k < |s.pcs[u].list| ensures s.table[j] != s.pcs[u].list[k] {
          assert EntryOk(s, s.table[j]);
        }
      }
    }
  }

  lemma TakeAllKeepsThreads(s: State, s': State, t: nat)
    requires TableOk(s) && ThreadsOk(s) && EntriesOk(s) && t < |s.pcs| && Next(s, TakeAll(t)) == Some(s')
    ensures ThreadsOk(s')
  {
    forall u | 0 <= u < |s.pcs| ensures ThreadOk(s', s'.pcs[u]) {
      assert ThreadOk(s, s.pcs[u]);
      if u == t {
        OrderedIncreasing(s.table);
        forall k | 0 <= k < |s.table|
          ensures s.table[k] in s'.taken && s.table[k] !in s.idle && s.table[k] !in s.busy
        {
          assert EntryOk(s, s.table[k]);
        }
      }
    }
  }

  lemma TakeAllKeepsEntries(s: State, s': State, t: nat)
    requires Valid(s) && EntriesOk(s) && t < |s.pcs| && Next(s, TakeAll(t)) == Some(s')
    ensures EntriesOk(s')
  {
    forall e | 0 <= e < |s.heap| ensures EntryOk(s', e) {
      assert EntryOk(s, e);
      assert e in s'.taken <==> e in s.taken || e in s.table;
    }
  }

  lemma TakeAllKeepsTaken(s: State, s': State, t: nat)
    requires Valid(s) && TakenOk(s) && t < |s.pcs| && Next(s, TakeAll(t)) == Some(s')
    ensures TakenOk(s')
  {
    forall e | e in s'.taken && e !in s'.idle && e !in s'.busy
      ensures exists u :: 0 <= u < |s'.pcs| && Pending(s'.pcs[u], e)
    {
      if e in s.taken {
        var u :| 0 <= u < |s.pcs| && Pending(s.pcs[u], e);
        assert Pending(s'.pcs[u], e);
      } else {
        var k :| 0 <= k < |s.table| && s.table[k] == e;
        assert s'.pcs[t].list[k] == e;
        assert Pending(s'.pcs[t], e);
      }
    }
  }

  lemma TakeAllKeeps(s: State, t: nat)
    requires Inv(s) && Next(s, TakeAll(t)).Some?
    ensures Inv(Next(s, TakeAll(t)).value)
  {
    var s' := Next(s, TakeAll(t)).value;
    assert ThreadsOk(s') by { TakeAllKeepsThreads(s, s', t); }
    assert PairsOk(s') by { TakeAllKeepsPairs(s, s', t); PairsMove(s, s', t); }
    assert EntriesOk(s') by { TakeAllKeepsEntries(s, s', t); }
    assert UsersOk(s') by { InsideUpdateAll(s.pcs, t, s'.pcs[t]); }
    assert TakenOk(s') by { TakeAllKeepsTaken(s, s', t); }
  }

  lemma StartKeeps(s: State, step: Step)
    requires Inv(s) && (step.With? || step.ForEach? || step.Remove?) && Next(s, step).Some?
    ensures Inv(Next(s, step).value)
  {
    var t, s' := step.t, Next(s, step).value;
    PlainPairs(s', s'.pcs[t]);
    GotoKeeps(s, t, s'.pcs[t]);
  }

  /// Every step of every interleaving keeps the invariant.
  lemma StepKeeps(s: State, step: Step)
    requires Inv(s) && Next(s, step).Some?
    ensures Inv(Next(s, step).value)
  {
    var t := step.t;
    match step {
      case Insert(_, _, _) => InsertKeeps(s, step);
      case With(_, _) => StartKeeps(s, step);
      case ForEach(_) => StartKeeps(s, step);
      case Remove(_, _) => StartKeeps(s, step);
      case TakeAll(_) => TakeAllKeeps(s, t);
      case Expire(_) => ExpireKeeps(s, t);
      case Advance(_) =>
        var pc := s.pcs[t];
        if pc.WithEnter? || pc.WithInside? { WithKeeps(s, t); }
        else if pc.ForEachAt? || pc.ForEachInside? { ForEachKeeps(s, t); }
        else if pc.RemoveClose? || pc.RemoveWait? || pc.RemoveReopen? { CloseKeeps(s, t); }
        else if pc.RemoveCheck? { CheckKeeps(s, t); }
        else if pc.RemoveErase? { EraseKeeps(s, t); }
        else { TakeKeeps(s, t); }
    }
  }

  // --------------------------------------------------------------- theorems

  function Run(s: State, steps: seq<Step>): Option<State>
    decreases |steps|
  {
    if steps == [] then Some(s)
    else if !Valid(s) then None
    else match Next(s, steps[0])
         case None => None
         case Some(s') => Run(s', steps[1..])
  }

  lemma {:induction false} RunKeeps(s: State, steps: seq<Step>)
    requires Inv(s) && Run(s, steps).Some?
    ensures Inv(Run(s, steps).value)
    decreases |steps|
  {
    if steps != [] {
      var s' := Next(s, steps[0]).value;
      assert Inv(s') by { StepKeeps(s, steps[0]); }
      RunKeeps(s', steps[1..]);
    }
  }

  lemma StepGrows(s: State, step: Step)
    requires Valid(s) && Next(s, step).Some?
    ensures s.removed <= Next(s, step).value.removed && s.idle <= Next(s, step).value.idle
  {
  }

  lemma {:induction false} RunGrows(s: State, steps: seq<Step>)
    requires Run(s, steps).Some?
    ensures s.removed <= Run(s, steps).value.removed && s.idle <= Run(s, steps).value.idle
    decreases |steps|
  {
    if steps != [] {
      StepGrows(s, steps[0]);
      RunGrows(Next(s, steps[0]).value, steps[1..]);
    }
  }

  /// An entry handed back to be stopped, by remove() or as one of takeAll()'s
  /// idle ones, has no call inside it, then or after any further steps.
  lemma HandedBackIsIdle(threads: nat, steps: seq<Step>, later: seq<Step>, e: nat)
    requires Run(Init(threads), steps).Some? && Run(Run(Init(threads), steps).value, later).Some?
    requires e in Run(Init(threads), steps).value.removed || e in Run(Init(threads), steps).value.idle
    ensures var s := Run(Run(Init(threads), steps).value, later).value;
            e < |s.heap| && s.heap[e].closing && s.heap[e].users == 0
            && forall t :: 0 <= t < |s.pcs| ==> InsideOf(s.pcs[t]) != Some(e)
  {
    InitHolds(threads);
    RunKeeps(Init(threads), steps);
    RunKeeps(Run(Init(threads), steps).value, later);
    RunGrows(Run(Init(threads), steps).value, later);
    var s := Run(Run(Init(threads), steps).value, later).value;
    assert EntryOk(s, e);
    forall t | 0 <= t < |s.pcs| ensures InsideOf(s.pcs[t]) != Some(e) {
      if InsideOf(s.pcs[t]) == Some(e) { InsidePositive(s.pcs, t, e); }
    }
  }

  /// In every reachable state ids are unique and in insertion order, and of
  /// two removals holding one entry, takeAll() has retired it.
  lemma IdsUniqueAndOneRemover(threads: nat, steps: seq<Step>)
    requires Run(Init(threads), steps).Some?
    ensures var s := Run(Init(threads), steps).value;
            && TableOk(s)
            && forall t, u | 0 <= t < |s.pcs| && 0 <= u < |s.pcs| && t != u
                 && HeldOf(s.pcs[t]).Some? && HeldOf(s.pcs[t]) == HeldOf(s.pcs[u]) ::
                 && HeldOf(s.pcs[t]).value < |s.heap| && s.heap[HeldOf(s.pcs[t]).value].retired
                 && HeldOf(s.pcs[t]).value in s.taken
                 && !(s.pcs[t].RemoveErase? && s.pcs[u].RemoveErase?)
  {
    InitHolds(threads);
    RunKeeps(Init(threads), steps);
    var s := Run(Init(threads), steps).value;
    forall t, u | 0 <= t < |s.pcs| && 0 <= u < |s.pcs| && t != u
        && HeldOf(s.pcs[t]).Some? && HeldOf(s.pcs[t]) == HeldOf(s.pcs[u])
      ensures && HeldOf(s.pcs[t]).value < |s.heap| && s.heap[HeldOf(s.pcs[t]).value].retired
              && HeldOf(s.pcs[t]).value in s.taken
              && !(s.pcs[t].RemoveErase? && s.pcs[u].RemoveErase?)
    {
      assert PairOk(s.heap, s.pcs[t], s.pcs[u]) && EntryOk(s, s.pcs[t].e);
    }
  }

  function HandOuts(s: State, e: nat): nat { s.removed[e] + s.idle[e] + s.busy[e] }

  /// Nothing is handed out twice unless an erase found its entry already gone:
  /// that is exactly a takeAll() whose swap came before the erase of a removal
  /// that saw the entry not yet retired. Then, once no takeAll() is running,
  /// both have handed the entry out to be stopped.
  lemma HandedOutOnceUnlessRaced(threads: nat, steps: seq<Step>, e: nat)
    requires Run(Init(threads), steps).Some?
    ensures var s := Run(Init(threads), steps).value;
            && (e !in s.raced ==> HandOuts(s, e) <= 1)
            && (e in s.raced ==> s.removed[e] == 1 && s.idle[e] <= 1 && s.busy[e] == 0 && e in s.taken)
            && ((forall t :: 0 <= t < |s.pcs| ==> !TakePc(s.pcs[t])) ==>
                  (e in s.raced <==> s.removed[e] == 1 && s.idle[e] == 1)
                  && (e in s.raced <==> HandOuts(s, e) == 2))
  {
    InitHolds(threads);
    RunKeeps(Init(threads), steps);
    var s := Run(Init(threads), steps).value;
    if e < |s.heap| {
      assert EntryOk(s, e);
    }
  }

  lemma NothingTakenNothingRaced(s: State)
    requires EntriesOk(s) && s.taken == {}
    ensures s.raced == {}
  {
    forall e | e in s.raced ensures e in s.taken { assert EntryOk(s, e); }
  }

  lemma OnlyTakeAllTakes(s: State, step: Step)
    requires Valid(s) && Next(s, step).Some? && !step.TakeAll?
    ensures Next(s, step).value.taken == s.taken
  {
  }

  /// Without takeAll() in the run no erase is ever raced, so nothing is handed
  /// out twice.
  lemma {:induction false} NoTakeAllNoRace(s: State, steps: seq<Step>)
    requires Inv(s) && s.taken == {} && s.raced == {} && Run(s, steps).Some?
    requires forall i :: 0 <= i < |steps| ==> !steps[i].TakeAll?
    ensures Run(s, steps).value.taken == {} && Run(s, steps).value.raced == {}
    decreases |steps|
  {
    if steps != [] {
      var s' := Next(s, steps[0]).value;
      StepKeeps(s, steps[0]);
      OnlyTakeAllTakes(s, steps[0]);
      NothingTakenNothingRaced(s');
      NoTakeAllNoRace(s', steps[1..]);
    }
  }

  /// Entry 0 removed by thread 0, which has looked inside it but not yet at
  /// whether it is retired, when thread 1's takeAll() swaps the list.
  function MidRace(): State {
    State([Entry("a", Some(7), 0, true, false)], [], [RemoveCheck(0), TakeRetire([0], 0)],
          multiset{}, multiset{}, multiset{}, {}, {0}, {})
  }

  lemma MidRaceHalf(s2: State)
    requires s2 == State([Entry("a", Some(7), 0, false, false)], [0], [RemoveClose(0), Idle], multiset{}, multiset{}, multiset{}, {}, {}, {})
    ensures Run(s2, [Advance(0), TakeAll(1)]) == Some(MidRace())
  {
    var s3 := Next(s2, Advance(0)).value;
    assert s3.heap == MidRace().heap && s3.pcs == [RemoveCheck(0), Idle];
    var s4 := Next(s3, TakeAll(1)).value;
    assert s4.pcs == MidRace().pcs && s4.taken == {0} by { assert s3.table[0] == 0; }
    RunTwo(s2, [Advance(0), TakeAll(1)], s3, s4);
  }

  lemma MidRaceReached()
    ensures Run(Init(2), [Insert(0, "a", Some(7)), Remove(0, "a"), Advance(0), TakeAll(1)]) == Some(MidRace())
  {
    var s0 := Init(2);
    var s1 := Next(s0, Insert(0, "a", Some(7))).value;
    assert s1.heap == [Entry("a", Some(7), 0, false, false)] && s1.table == [0];
    var s2 := Next(s1, Remove(0, "a")).value;
    MidRaceHalf(s2);
    RunTwo(s0, [Insert(0, "a", Some(7)), Remove(0, "a"), Advance(0), TakeAll(1)], s1, s2);
  }

  function AfterErase(): State {
    MidRace().(pcs := [Finished(Removed(0)), TakeRetire([0], 0)], removed := multiset{0}, raced := {0})
  }

  lemma EraseRaces(rest: seq<Step>)
    ensures Run(MidRace(), [Advance(0), Advance(0)] + rest) == Run(AfterErase(), rest)
  {
    var s4 := MidRace();
    var s5 := s4.(pcs := s4.pcs[0 := RemoveErase(0)]);
    var s6 := Next(s5, Advance(0)).value;
    assert s6 == AfterErase() by { assert s6.pcs == AfterErase().pcs; }
    var steps := [Advance(0), Advance(0)] + rest;
    assert steps[2..] == rest;
    RunTwo(s4, steps, s5, s6);
  }

  /// The promise broken: the removal finds the entry not yet retired, and both
  /// it and takeAll() hand the entry out.
  lemma RaceHandsOutTwice()
    ensures Run(Init(2), [Insert(0, "a", Some(7)), Remove(0, "a"), Advance(0), TakeAll(1)]) == Some(MidRace())
    ensures var end := Run(MidRace(), [Advance(0), Advance(0)] + [Advance(1), Advance(1)]);
            end.Some? && end.value.removed == multiset{0} && end.value.idle == multiset{0} && end.value.raced == {0}
  {
    MidRaceReached();
    EraseRaces([Advance(1), Advance(1)]);
    TakeAllFinishes();
  }

  lemma TakeAllFinishes()
    ensures var end := Run(AfterErase(), [Advance(1), Advance(1)]);
            end.Some? && end.value.removed == multiset{0} && end.value.idle == multiset{0} && end.value.raced == {0}
  {
    var s6 := AfterErase();
    var s7 := AdvanceTake(s6, 1).value;
    assert s7.pcs == [Finished(Removed(0)), TakeClose([0], 0)];
    assert s7.heap == [Entry("a", Some(7), 0, true, true)];
    var s8 := AdvanceTake(s7, 1).value;
    assert s8.idle == multiset{0} && s8.removed == multiset{0} && s8.raced == {0};
    RunTwo(s6, [Advance(1), Advance(1)], s7, s8);
  }

  lemma RunTwo(s: State, steps: seq<Step>, s1: State, s2: State)
    requires |steps| >= 2 && Valid(s) && Valid(s1)
    requires Next(s, steps[0]) == Some(s1) && Next(s1, steps[1]) == Some(s2)
    ensures Run(s, steps) == Run(s2, steps[2..])
  {
    assert steps[1..][1..] == steps[2..];
    assert Run(s, steps) == Run(s1, steps[1..]);
  }

  /// A removal that reports busy leaves an entry no takeAll() has taken in the
  /// table, open again and held by nobody.
  lemma BusyChangesNothing(s: State, t: nat)
    requires Inv(s) && t < |s.pcs| && s.pcs[t].RemoveReopen? && s.pcs[t].e !in s.taken
    ensures Next(s, Advance(t)).Some?
    ensures var e, s' := s.pcs[t].e, Next(s, Advance(t)).value;
            && s'.pcs[t] == Finished(Busy(e))
            && s'.table == s.table && e in s'.table && e < |s.heap| && |s'.heap| == |s.heap|
            && s'.heap[e] == s.heap[e].(closing := false)
            && Entered(s'.heap[e]).Some?
            && forall u :: 0 <= u < |s'.pcs| ==> HeldOf(s'.pcs[u]) != Some(e)
  {
    var e := s.pcs[t].e;
    assert ThreadOk(s, s.pcs[t]) && EntryOk(s, e);
    forall u | 0 <= u < |s.pcs| && u != t ensures HeldOf(s.pcs[u]) != Some(e) {
      assert PairOk(s.heap, s.pcs[t], s.pcs[u]);
    }
  }

  // ---------------------------------------------------------------- objects

  /// The entry as the source has it: an object whose fields change under its
  /// own lock. Each method is one locked region.
  class TableEntry {
    const id: string
    const value: Option<nat>
    var users: int
    var closing: bool
    var retired: bool

    constructor (id: string, value: Option<nat>)
      ensures View() == Entry(id, value, 0, false, false)
    {
      this.id := id;
      this.value := value;
      users, closing, retired := 0, false, false;
    }

    function View(): Entry
      reads this
    {
      Entry(id, value, users, closing, retired)
    }

    method Enter() returns (entered: bool)
      modifies this
      ensures entered == Entered(old(View())).Some?
      ensures View() == if entered then Entered(old(View())).value else old(View())
    {
      if closing {
        return false;
      }
      users := users + 1;
      return true;
    }

    method Leave()
      modifies this
      ensures View() == Left(old(View()))
    {
      users := users - 1;
    }

    method Close() returns (how: Closed)
      modifies this
      ensures (View(), how) == BeginClose(old(View()))
    {
      if closing && !retired {
        return Already;
      }
      closing := true;
      how := if users == 0 then Empty else Waiting;
    }

    method Reopen()
      modifies this
      ensures View() == Reopened(old(View()))
    {
      if !retired {
        closing := false;
      }
    }

    method MarkRetired()
      modifies this
      ensures View() == Retire(old(View()))
    {
      retired := true;
    }
  }

  /// The list itself, under the table's lock.
  class EntryList {
    var entries: seq<TableEntry>

    constructor ()
      ensures entries == []
    {
      entries := [];
    }

    predicate UniqueIds()
      reads this
    {
      forall i, j :: 0 <= i < j < |entries| ==> entries[i].id != entries[j].id
    }

    /// The position of `id`, or None when nothing is called that.
    method FindLocked(id: string) returns (at: Option<nat>)
      ensures at.Some? ==> at.value < |entries| && entries[at.value].id == id
                           && forall i :: 0 <= i < at.value ==> entries[i].id != id
      ensures at.None? ==> forall i :: 0 <= i < |entries| ==> entries[i].id != id
    {
      for i := 0 to |entries|
        invariant forall j :: 0 <= j < i ==> entries[j].id != id
      {
        if entries[i].id == id {
          return Some(i);
        }
      }
      return None;
    }

    method Insert(id: string, value: Option<nat>) returns (inserted: bool)
      requires UniqueIds()
      modifies this
      ensures UniqueIds()
      ensures inserted <==> forall i :: 0 <= i < |old(entries)| ==> old(entries)[i].id != id
      ensures !inserted ==> entries == old(entries)
      ensures inserted ==> |entries| == |old(entries)| + 1 && entries[..|old(entries)|] == old(entries)
                           && fresh(entries[|old(entries)|])
                           && entries[|old(entries)|].View() == Entry(id, value, 0, false, false)
    {
      var entry := new TableEntry(id, value);
      var at := FindLocked(id);
      if at.Some? {
        return false;
      }
      entries := entries + [entry];
      return true;
    }

    /// Everything but `entry`, in order, as std::remove then erase leaves it.
    method Erase(entry: TableEntry)
      modifies this
      ensures entry !in entries
      ensures entries == Others(old(entries), entry)
    {
      var kept: seq<TableEntry> := [];
      for i := 0 to |entries|
        invariant entries == old(entries)
        invariant kept + Others(entries[i..], entry) == Others(entries, entry)
        invariant entry !in kept
      {
        if entries[i] != entry {
          kept := kept + [entries[i]];
        }
      }
      assert entries[|entries|..] == [];
      entries := kept;
    }

    static ghost function Others(list: seq<TableEntry>, entry: TableEntry): seq<TableEntry> {
      if list == [] then []
      else (if list[0] == entry then [] else [list[0]]) + Others(list[1..], entry)
    }

    method Swap() returns (all: seq<TableEntry>)
      modifies this
      ensures all == old(entries) && entries == []
    {
      all := entries;
      entries := [];
    }
  }
}
