/** The lock server of md_distribute_mutex/md_mutex_server_process.c: a fixed
    table of reference-counted mutexes, one thread per request.  What a thread
    does while it holds the global mutex is one step; steps of different threads
    interleave freely. */
module LockServer {

  /** A row of mutex_table: how many requests use it, whether its mutex is
      locked, and the file it stands for. */
  datatype Entry = Entry(count: int, locked: bool, name: string)

  type Table = seq<Entry>

  datatype Op = Lock | TryLock

  /** The life of one locking session, from its lock request to the end of the
      unlock request that ends it.  e is a row of the table. */
  datatype Phase =
    | Asked(op: Op, file: string)           // lock thread started
    | Got(op: Op, e: int, file: string)     // get_z_mutex returned row e
    | TryFailed(e: int, file: string)       // trylock failed, row not yet put back
    | Held(e: int, file: string)            // locked, client told so
    | AskedUnlock(e: int, file: string)     // unlock thread started
    | Unlocking(e: int, file: string, found: int)   // its get_z_mutex returned row found
    | Released(e: int, file: string)        // mutex unlocked, row not yet put back
    | Over                                  // refused, failed or finished

  datatype State = State(table: Table, phase: map<int, Phase>)

  // ---------- get_z_mutex and put_z_mutex ----------

  /** The first row in use for the file, or |t|. */
  function Find(t: Table, file: string): (i: nat)
    ensures i <= |t|
    ensures i < |t| ==> t[i].count > 0 && t[i].name == file
    ensures forall j :: 0 <= j < i ==> !(t[j].count > 0 && t[j].name == file)
  {
    if t == [] then 0
    else if t[0].count > 0 && t[0].name == file then 0
    else 1 + Find(t[1..], file)
  }

  /** The first row not in use, or |t|. */
  function FirstFree(t: Table): (i: nat)
    ensures i <= |t|
    ensures i < |t| ==> t[i].count == 0
    ensures forall j :: 0 <= j < i ==> t[j].count != 0
  {
    if t == [] then 0
    else if t[0].count == 0 then 0
    else 1 + FirstFree(t[1..])
  }

  /** get_z_mutex for a lock or try-lock request: the row, -1 for none. */
  function GetRow(t: Table, file: string): int {
    if Find(t, file) < |t| then Find(t, file)
    else if FirstFree(t) < |t| then FirstFree(t)
    else -1
  }

  function GetTable(t: Table, file: string): Table {
    var i := Find(t, file);
    var k := FirstFree(t);
    if i < |t| then t[i := t[i].(count := t[i].count + 1)]
    else if k < |t| then t[k := t[k].(count := 1, name := file)]
    else t
  }

  predicate InUseFor(r: Entry, file: string) {
    r.count > 0 && r.name == file
  }

  /** A request is given the row in use for its file, else the first free row, else
      none; the row it is given is counted up and stands for the file. */
  lemma RowGiven(t: Table, file: string)
    ensures var e, t' := GetRow(t, file), GetTable(t, file);
      && -1 <= e < |t| == |t'|
      && (forall j :: 0 <= j < |t| && j != e ==> t'[j] == t[j])
      && (e == -1 <==> forall j :: 0 <= j < |t| ==> t[j].count != 0 && !InUseFor(t[j], file))
      && (e != -1 ==> t'[e] == Entry(t[e].count + 1, t[e].locked, file))
      && (e != -1 && !InUseFor(t[e], file) ==>
            && t[e].count == 0 && (forall j :: 0 <= j < e ==> t[j].count != 0)
            && forall j :: 0 <= j < |t| ==> !InUseFor(t[j], file))
  {
    if exists j :: 0 <= j < |t| && InUseFor(t[j], file) {
      var j :| 0 <= j < |t| && InUseFor(t[j], file);
      assert Find(t, file) <= j;
    }
    if exists j :: 0 <= j < |t| && t[j].count == 0 {
      var j :| 0 <= j < |t| && t[j].count == 0;
      assert FirstFree(t) <= j;
    }
  }

  function PutTable(t: Table, e: int): Table
    requires 0 <= e < |t|
  {
    t[e := t[e].(count := t[e].count - 1)]
  }

  class MutexTable {
    const rows: array<Entry>

    constructor (n: nat)
      ensures rows.Length == n && fresh(rows)
      ensures forall i :: 0 <= i < n ==> rows[i] == Entry(0, false, "")
    {
      rows := new Entry[n](i => Entry(0, false, ""));
    }

    /** The scan of the table: it remembers the first free row and stops at the
        first row in use for the file. */
    method Scan(file: string) returns (i: nat, free: nat)
      requires forall j :: 0 <= j < rows.Length ==> rows[j].count >= 0
      ensures i == Find(rows[..], file)
      ensures i == rows.Length ==> free == FirstFree(rows[..])
    {
      i := 0;
      free := rows.Length;
      while i < rows.Length
        invariant 0 <= i <= rows.Length
        invariant forall j :: 0 <= j < i ==> !(rows[j].count > 0 && rows[j].name == file)
        invariant free == rows.Length || (free < i && rows[free].count == 0)
        invariant forall j :: 0 <= j < (if free < i then free else i) ==> rows[j].count != 0
      {
        if rows[i].count == 0 {
          if free == rows.Length {
            free := i;
          }
        } else if rows[i].name == file {
          break;
        }
        i := i + 1;
      }
    }

    /** get_z_mutex for a lock or try-lock request. */
    method Get(file: string) returns (e: int)
      requires forall j :: 0 <= j < rows.Length ==> rows[j].count >= 0
      modifies rows
      ensures e == GetRow(old(rows[..]), file) && rows[..] == GetTable(old(rows[..]), file)
    {
      var i, free := Scan(file);
      if i == rows.Length {
        if free == rows.Length {
          e := -1;
        } else {
          e := free;
          rows[e] := rows[e].(name := file, count := 1);
        }
      } else {
        e := i;
        rows[e] := rows[e].(count := rows[e].count + 1);
      }
    }

    /** get_z_mutex for an unlock request: the row is not counted up. */
    method GetForUnlock(file: string) returns (e: int)
      requires forall j :: 0 <= j < rows.Length ==> rows[j].count >= 0
      ensures e == if Find(rows[..], file) < rows.Length then Find(rows[..], file) else -1
    {
      var i, free := Scan(file);
      e := if i == rows.Length then -1 else i;
    }

    method Put(e: int)
      requires 0 <= e < rows.Length
      modifies rows
      ensures rows[..] == PutTable(old(rows[..]), e)
    {
      rows[e] := rows[e].(count := rows[e].count - 1);
    }
  }

  // ---------- the steps ----------

  datatype Step =
    | Start(id: int, op: Op, file: string)  // a client asks to lock a file
    | Get(id: int)                          // its thread runs get_z_mutex
    | LockRow(id: int)                      // pthread_mutex_lock returns
    | TryRow(id: int)                       // pthread_mutex_trylock returns
    | StartUnlock(id: int)                  // the holder asks to unlock, once
    | GetUnlock(id: int)                    // its thread runs get_z_mutex
    | UnlockRow(id: int)                    // pthread_mutex_unlock, or the reply that no row was found
    | Put(id: int)                          // put_z_mutex

  ghost predicate Enabled(s: State, a: Step) {
    match a
    case Start(id, _, _) => id !in s.phase
    case Get(id) => id in s.phase && s.phase[id].Asked?
    case LockRow(id) =>
      && id in s.phase && s.phase[id].Got? && s.phase[id].op == Lock
      && 0 <= s.phase[id].e < |s.table| && !s.table[s.phase[id].e].locked
    case TryRow(id) =>
      id in s.phase && s.phase[id].Got? && s.phase[id].op == TryLock && 0 <= s.phase[id].e < |s.table|
    case StartUnlock(id) => id in s.phase && s.phase[id].Held?
    case GetUnlock(id) => id in s.phase && s.phase[id].AskedUnlock?
    case UnlockRow(id) =>
      id in s.phase && s.phase[id].Unlocking? && -1 <= s.phase[id].found < |s.table|
    case Put(id) =>
      id in s.phase && (s.phase[id].TryFailed? || s.phase[id].Released?) && 0 <= s.phase[id].e < |s.table|
  }

  function SetLocked(t: Table, e: int, b: bool): Table
    requires 0 <= e < |t|
  {
    t[e := t[e].(locked := b)]
  }

  ghost function Do(s: State, a: Step): State
    requires Enabled(s, a)
  {
    match a
    case Start(id, op, file) => s.(phase := s.phase[id := Asked(op, file)])
    case Get(id) =>
      var ph := s.phase[id];
      var e := GetRow(s.table, ph.file);
      State(GetTable(s.table, ph.file), s.phase[id := if e == -1 then Over else Got(ph.op, e, ph.file)])
    case LockRow(id) =>
      var ph := s.phase[id];
      State(SetLocked(s.table, ph.e, true), s.phase[id := Held(ph.e, ph.file)])
    case TryRow(id) =>
      var ph := s.phase[id];
      if s.table[ph.e].locked then s.(phase := s.phase[id := TryFailed(ph.e, ph.file)])
      else State(SetLocked(s.table, ph.e, true), s.phase[id := Held(ph.e, ph.file)])
    case StartUnlock(id) =>
      var ph := s.phase[id];
      s.(phase := s.phase[id := AskedUnlock(ph.e, ph.file)])
    case GetUnlock(id) =>
      var ph := s.phase[id];
      var i := Find(s.table, ph.file);
      s.(phase := s.phase[id := Unlocking(ph.e, ph.file, if i < |s.table| then i else -1)])
    case UnlockRow(id) =>
      var ph := s.phase[id];
      if ph.found == -1 then s.(phase := s.phase[id := Over])
      else State(SetLocked(s.table, ph.found, false), s.phase[id := Released(ph.found, ph.file)])
    case Put(id) => State(PutTable(s.table, s.phase[id].e), s.phase[id := Over])
  }

  // ---------- the invariant ----------

  predicate Uses(ph: Phase, e: int) {
    !ph.Asked? && !ph.Over? && ph.e == e
  }

  predicate Holds(ph: Phase, e: int) {
    (ph.Held? || ph.AskedUnlock? || ph.Unlocking?) && ph.e == e
  }

  ghost predicate Holding(s: State, id: int, e: int) {
    id in s.phase && Holds(s.phase[id], e)
  }

  /** The requests that refer to row e. */
  ghost function Users(s: State, e: int): set<int> {
    set id | id in s.phase && Uses(s.phase[id], e)
  }

  /** Live rows have different names. */
  ghost predicate DistinctNames(t: Table) {
    forall i, j :: 0 <= i < j < |t| && t[i].count > 0 && t[j].count > 0 ==> t[i].name != t[j].name
  }

  /** Each row's count is the number of requests that refer to it. */
  ghost predicate Counted(s: State) {
    forall e :: 0 <= e < |s.table| ==> s.table[e].count == |Users(s, e)|
  }

  /** A request refers to the row of its own file, also when it unlocks. */
  ghost predicate RightRow(s: State) {
    forall id :: id in s.phase && !s.phase[id].Asked? && !s.phase[id].Over? ==>
      var ph := s.phase[id];
      && 0 <= ph.e < |s.table| && s.table[ph.e].name == ph.file
      && (ph.Unlocking? ==> ph.found == ph.e)
  }

  /** A row's mutex is locked exactly while one session holds it. */
  ghost predicate OneHolder(s: State) {
    && (forall id, id', e :: Holding(s, id, e) && Holding(s, id', e) ==> id == id')
    && (forall id, e :: Holding(s, id, e) ==> 0 <= e < |s.table| && s.table[e].locked)
    && (forall e :: 0 <= e < |s.table| && s.table[e].locked ==> exists id :: Holding(s, id, e))
  }

  function Row(ph: Phase): int {
    if ph.Asked? || ph.Over? then -1 else ph.e
  }

  ghost predicate Inv(s: State) {
    DistinctNames(s.table) && Counted(s) && RightRow(s) && OneHolder(s)
  }

  ghost predicate Initial(s: State) {
    s.phase == map[] && forall e :: 0 <= e < |s.table| ==> s.table[e].count == 0 && !s.table[e].locked
  }

  lemma InitialInv(s: State)
    requires Initial(s)
    ensures Inv(s)
  {
    assert forall e :: Users(s, e) == {};
  }

  // ---------- every step keeps it ----------

  lemma LiveRow(s: State, id: int)
    requires Counted(s) && RightRow(s) && id in s.phase && Row(s.phase[id]) != -1
    ensures 0 <= s.phase[id].e < |s.table| && s.table[s.phase[id].e].count > 0
  {
    var e := s.phase[id].e;
    assert id in Users(s, e);
    assert |Users(s, e)| > 0;
  }

  /** The search for the file of a live row finds that row. */
  lemma FindsRow(t: Table, file: string, e: int)
    requires DistinctNames(t) && 0 <= e < |t| && t[e].count > 0 && t[e].name == file
    ensures Find(t, file) == e
  {
  }

  /** Changing the phase of one request changes the users of at most two rows. */
  lemma UsersChange(s: State, id: int, ph: Phase, t: Table, e: int)
    ensures var s' := State(t, s.phase[id := ph]);
      Users(s', e) == if Uses(ph, e) then Users(s, e) + {id} else Users(s, e) - {id}
  {
  }

  lemma CountedStep(s: State, s': State, id: int)
    requires Counted(s) && |s'.table| == |s.table| && id in s'.phase && s'.phase == s.phase[id := s'.phase[id]]
    requires forall e :: 0 <= e < |s.table| ==>
      s'.table[e].count == s.table[e].count + (if Uses(s'.phase[id], e) then 1 else 0)
                           - (if id in s.phase && Uses(s.phase[id], e) then 1 else 0)
    ensures Counted(s')
  {
    forall e | 0 <= e < |s.table|
      ensures s'.table[e].count == |Users(s', e)|
    {
      UsersChange(s, id, s'.phase[id], s'.table, e);
      assert s' == State(s'.table, s.phase[id := s'.phase[id]]);
      assert id in Users(s, e) <==> id in s.phase && Uses(s.phase[id], e);
    }
  }

  /** A step that changes one request and leaves names and the mutexes of rows alone. */
  lemma QuietStep(s: State, s': State, id: int)
    requires Inv(s) && Counted(s') && |s'.table| == |s.table| && id in s'.phase && s'.phase == s.phase[id := s'.phase[id]]
    requires forall e :: 0 <= e < |s.table| ==> s'.table[e].name == s.table[e].name && s'.table[e].locked == s.table[e].locked
    requires forall e :: 0 <= e < |s.table| && s'.table[e].count > 0 ==> s.table[e].count > 0
    requires forall e :: Holds(s'.phase[id], e) <==> id in s.phase && Holds(s.phase[id], e)
    requires var ph := s'.phase[id];
      && (!ph.Asked? && !ph.Over? ==> 0 <= ph.e < |s.table| && s.table[ph.e].name == ph.file)
      && (ph.Unlocking? ==> ph.found == ph.e)
    ensures Inv(s')
  {
    assert forall j, e :: Holding(s', j, e) <==> Holding(s, j, e);
    forall e | 0 <= e < |s'.table| && s'.table[e].locked
      ensures exists j :: Holding(s', j, e)
    {
      var j :| Holding(s, j, e);
      assert Holding(s', j, e);
    }
  }

  lemma GetKeeps(s: State, id: int)
    requires Inv(s) && Enabled(s, Get(id))
    ensures Inv(Do(s, Get(id)))
  {
    var s' := Do(s, Get(id));
    var file := s.phase[id].file;
    var i, k := Find(s.table, file), FirstFree(s.table);
    CountedStep(s, s', id);
    if i < |s.table| || k == |s.table| {
      QuietStep(s, s', id);
    } else {
      FreshRow(s, s', id, k, file);
    }
  }

  /** A free row taken for a new file was unlocked and unreferenced. */
  lemma FreshRow(s: State, s': State, id: int, k: int, file: string)
    requires Inv(s) && Enabled(s, Get(id)) && s' == Do(s, Get(id)) && Counted(s')
    requires Find(s.table, file) == |s.table| && k == FirstFree(s.table) < |s.table| && file == s.phase[id].file
    ensures Users(s, k) == {} && !s.table[k].locked && Inv(s')
  {
    assert |Users(s, k)| == 0;
    NoHolder(s, k);
    assert forall j, e :: Holding(s', j, e) <==> Holding(s, j, e);
    assert forall j :: j in s.phase && Uses(s.phase[j], k) ==> j in Users(s, k);
    forall e | 0 <= e < |s'.table| && s'.table[e].locked
      ensures exists j :: Holding(s', j, e)
    {
      var j :| Holding(s, j, e);
      assert Holding(s', j, e);
    }
  }

  lemma NoHolder(s: State, e: int)
    requires OneHolder(s) && 0 <= e < |s.table| && Users(s, e) == {}
    ensures !s.table[e].locked
  {
    forall id
      ensures !Holding(s, id, e)
    {
      assert Holding(s, id, e) ==> id in Users(s, e);
    }
  }

  lemma LockKeeps(s: State, id: int)
    requires Inv(s) && id in s.phase && s.phase[id].Got? && 0 <= s.phase[id].e < |s.table| && !s.table[s.phase[id].e].locked
    ensures var ph := s.phase[id];
      Inv(State(SetLocked(s.table, ph.e, true), s.phase[id := Held(ph.e, ph.file)]))
  {
    var ph := s.phase[id];
    var s' := State(SetLocked(s.table, ph.e, true), s.phase[id := Held(ph.e, ph.file)]);
    CountedStep(s, s', id);
    assert forall j, e :: Holding(s', j, e) <==> Holding(s, j, e) || (j == id && e == ph.e);
    forall e | 0 <= e < |s'.table| && s'.table[e].locked
      ensures exists j :: Holding(s', j, e)
    {
      if e == ph.e {
        assert Holding(s', id, e);
      } else {
        var j :| Holding(s, j, e);
        assert Holding(s', j, e);
      }
    }
  }

  lemma UnlockKeeps(s: State, id: int)
    requires Inv(s) && Enabled(s, UnlockRow(id))
    ensures s.phase[id].found == s.phase[id].e && Inv(Do(s, UnlockRow(id)))
  {
    var ph := s.phase[id];
    assert 0 <= ph.e < |s.table| && ph.found == ph.e;
    var s' := Do(s, UnlockRow(id));
    CountedStep(s, s', id);
    assert Holding(s, id, ph.e);
    assert forall j, e :: Holding(s', j, e) <==> Holding(s, j, e) && j != id;
    forall e | 0 <= e < |s'.table| && s'.table[e].locked
      ensures exists j :: Holding(s', j, e)
    {
      var j :| Holding(s, j, e);
      assert Holding(s', j, e);
    }
  }

  lemma TryKeeps(s: State, id: int)
    requires Inv(s) && Enabled(s, TryRow(id))
    ensures Inv(Do(s, TryRow(id)))
  {
    if s.table[s.phase[id].e].locked {
      CountedStep(s, Do(s, TryRow(id)), id);
      QuietStep(s, Do(s, TryRow(id)), id);
    } else {
      LockKeeps(s, id);
    }
  }

  lemma PutKeeps(s: State, id: int)
    requires Inv(s) && Enabled(s, Put(id))
    ensures Inv(Do(s, Put(id)))
  {
    LiveRow(s, id);
    CountedStep(s, Do(s, Put(id)), id);
    QuietStep(s, Do(s, Put(id)), id);
  }

  lemma GetUnlockKeeps(s: State, id: int)
    requires Inv(s) && Enabled(s, GetUnlock(id))
    ensures Inv(Do(s, GetUnlock(id)))
  {
    LiveRow(s, id);
    FindsRow(s.table, s.phase[id].file, s.phase[id].e);
    CountedStep(s, Do(s, GetUnlock(id)), id);
    QuietStep(s, Do(s, GetUnlock(id)), id);
  }

  lemma StartKeeps(s: State, a: Step)
    requires Inv(s) && Enabled(s, a) && (a.Start? || a.StartUnlock?)
    ensures Inv(Do(s, a))
  {
    CountedStep(s, Do(s, a), a.id);
    QuietStep(s, Do(s, a), a.id);
  }

  lemma StepKeeps(s: State, a: Step)
    requires Inv(s) && Enabled(s, a)
    ensures Inv(Do(s, a))
  {
    hide Inv;
    match a {
      case Get(id) => GetKeeps(s, id);
      case LockRow(id) => LockKeeps(s, id);
      case UnlockRow(id) => UnlockKeeps(s, id);
      case TryRow(id) => TryKeeps(s, id);
      case Put(id) => PutKeeps(s, id);
      case GetUnlock(id) => GetUnlockKeeps(s, id);
      case Start(_, _, _) => StartKeeps(s, a);
      case StartUnlock(_) => StartKeeps(s, a);
    }
  }

  // ---------- every interleaving ----------

  /** A run: from a fresh table of n rows the steps lead through the states. */
  ghost predicate Run(n: nat, states: seq<State>, steps: seq<Step>) {
    && |states| == |steps| + 1 && Initial(states[0]) && |states[0].table| == n
    && forall i :: 0 <= i < |steps| ==> Enabled(states[i], steps[i]) && states[i + 1] == Do(states[i], steps[i])
  }

  lemma {:induction false} RunInv(n: nat, states: seq<State>, steps: seq<Step>, i: nat)
    requires Run(n, states, steps) && i < |states|
    ensures Inv(states[i]) && |states[i].table| == n
  {
    if i == 0 {
      InitialInv(states[0]);
    } else {
      RunInv(n, states, steps, i - 1);
      assert Enabled(states[i - 1], steps[i - 1]) && states[i - 1 + 1] == Do(states[i - 1], steps[i - 1]);
      StepKeeps(states[i - 1], steps[i - 1]);
    }
  }

  /** In every interleaving at most one session holds a given file. */
  lemma MutualExclusion(n: nat, states: seq<State>, steps: seq<Step>, i: nat, id: int, id': int)
    requires Run(n, states, steps) && i < |states| && id in states[i].phase && id' in states[i].phase
    requires var s := states[i];
      && Holds(s.phase[id], Row(s.phase[id])) && Holds(s.phase[id'], Row(s.phase[id']))
      && s.phase[id].file == s.phase[id'].file
    ensures id == id'
  {
    var s := states[i];
    RunInv(n, states, steps, i);
    LiveRow(s, id);
    LiveRow(s, id');
    assert Holding(s, id, s.phase[id].e) && Holding(s, id', s.phase[id'].e);
  }

  /** A row changes its name only while no request refers to it and its mutex is
      unlocked; counts never go negative, so the scan never meets its error exit. */
  lemma RowReuse(n: nat, states: seq<State>, steps: seq<Step>, i: nat, s: State, a: Step, e: int)
    requires Run(n, states, steps) && i < |states| && s == states[i] && Enabled(s, a) && 0 <= e < |s.table|
    ensures |Do(s, a).table| == |s.table| == n && s.table[e].count >= 0
    ensures Do(s, a).table[e].name != s.table[e].name ==> Users(s, e) == {} && !s.table[e].locked
  {
    RunInv(n, states, steps, i);
    if a.Get? {
      var file := s.phase[a.id].file;
      if Find(s.table, file) == n && FirstFree(s.table) < n {
        GetKeeps(s, a.id);
        FreshRow(s, Do(s, a), a.id, FirstFree(s.table), file);
      }
    }
  }

  /** An unlock request always finds the row its session locked. */
  lemma UnlockFindsItsRow(n: nat, states: seq<State>, steps: seq<Step>, i: nat, s: State, id: int)
    requires Run(n, states, steps) && i < |states| && s == states[i] && id in s.phase && s.phase[id].AskedUnlock?
    ensures Find(s.table, s.phase[id].file) == s.phase[id].e < |s.table|
    ensures s.table[s.phase[id].e].locked
  {
    RunInv(n, states, steps, i);
    LiveRow(s, id);
    FindsRow(s.table, s.phase[id].file, s.phase[id].e);
    assert Holding(s, id, s.phase[id].e);
  }

  /** A lock or try-lock request is refused a row exactly when every row is in use
      and none of them for its file. */
  lemma RefusedWhenFull(n: nat, states: seq<State>, steps: seq<Step>, i: nat, s: State, id: int)
    requires Run(n, states, steps) && i < |states| && s == states[i] && id in s.phase && s.phase[id].Asked?
    ensures Do(s, Get(id)).phase[id].Over? <==>
      forall e :: 0 <= e < |s.table| ==> Users(s, e) != {} && s.table[e].name != s.phase[id].file
  {
    RunInv(n, states, steps, i);
    var file := s.phase[id].file;
    if forall e :: 0 <= e < |s.table| ==> Users(s, e) != {} && s.table[e].name != file {
      forall e | 0 <= e < n
        ensures s.table[e].count > 0
      {
        assert |Users(s, e)| > 0;
      }
    }
    if Do(s, Get(id)).phase[id].Over? {
      forall e | 0 <= e < n
        ensures Users(s, e) != {} && s.table[e].name != file
      {
        assert s.table[e].count == |Users(s, e)| != 0;
      }
    }
  }

  // ---------- what each session is answered ----------

  /** A session was granted the file and the server has not yet unlocked it. */
  ghost predicate HasFile(ph: Phase, file: string) {
    (ph.Held? || ph.AskedUnlock? || ph.Unlocking?) && ph.file == file
  }

  ghost predicate Taken(s: State, file: string) {
    exists id :: id in s.phase && HasFile(s.phase[id], file)
  }

  /** A row is locked exactly while a session has the file it stands for. */
  lemma LockedIsTaken(s: State, e: int)
    requires Inv(s) && 0 <= e < |s.table| && s.table[e].count > 0
    ensures s.table[e].locked <==> Taken(s, s.table[e].name)
  {
    if s.table[e].locked {
      var id :| Holding(s, id, e);
      assert HasFile(s.phase[id], s.table[e].name);
    }
    if Taken(s, s.table[e].name) {
      var id :| id in s.phase && HasFile(s.phase[id], s.table[e].name);
      LiveRow(s, id);
      assert Holding(s, id, s.phase[id].e);
    }
  }

  /** A request that is given a row carries on with its own operation and file, on a
      row that stands for that file. */
  lemma GetGives(n: nat, states: seq<State>, steps: seq<Step>, i: nat, s: State, id: int)
    requires Run(n, states, steps) && i < |states| && s == states[i] && Enabled(s, Get(id))
    ensures var s' := Do(s, Get(id));
      && s'.phase == s.phase[id := s'.phase[id]]
      && (s'.phase[id] == Over ||
            (s'.phase[id].Got? && s'.phase[id].op == s.phase[id].op && s'.phase[id].file == s.phase[id].file
             && 0 <= s'.phase[id].e < n && s'.table[s'.phase[id].e].name == s.phase[id].file))
      && forall file :: Taken(s', file) <==> Taken(s, file)
  {
    hide GetRow, GetTable;
    RunInv(n, states, steps, i);
    RowGiven(s.table, s.phase[id].file);
    var s' := Do(s, Get(id));
    assert forall j, file :: j in s.phase && HasFile(s.phase[j], file) <==> j in s'.phase && HasFile(s'.phase[j], file);
  }

  /** A lock request gets its file, and can do so exactly when no session has it. */
  lemma LockGives(n: nat, states: seq<State>, steps: seq<Step>, i: nat, s: State, id: int)
    requires Run(n, states, steps) && i < |states| && s == states[i] && id in s.phase && s.phase[id].Got?
    ensures s.phase[id].op == Lock ==> (Enabled(s, LockRow(id)) <==> !Taken(s, s.phase[id].file))
    ensures Enabled(s, LockRow(id)) ==>
      Do(s, LockRow(id)).phase == s.phase[id := Held(s.phase[id].e, s.phase[id].file)]
  {
    RunInv(n, states, steps, i);
    LiveRow(s, id);
    LockedIsTaken(s, s.phase[id].e);
  }

  /** A try-lock request gets its file exactly if no session has it, and is told that
      it failed otherwise. */
  lemma TryGives(n: nat, states: seq<State>, steps: seq<Step>, i: nat, s: State, id: int)
    requires Run(n, states, steps) && i < |states| && s == states[i] && Enabled(s, TryRow(id))
    ensures Do(s, TryRow(id)).phase == s.phase[id :=
      if Taken(s, s.phase[id].file) then TryFailed(s.phase[id].e, s.phase[id].file)
      else Held(s.phase[id].e, s.phase[id].file)]
  {
    RunInv(n, states, steps, i);
    LiveRow(s, id);
    LockedIsTaken(s, s.phase[id].e);
  }

  /** An unlock request gives back the file of its session, which nobody has then. */
  lemma UnlockGives(n: nat, states: seq<State>, steps: seq<Step>, i: nat, s: State, id: int)
    requires Run(n, states, steps) && i < |states| && s == states[i] && Enabled(s, UnlockRow(id))
    ensures var s' := Do(s, UnlockRow(id));
      && s'.phase == s.phase[id := Released(s.phase[id].e, s.phase[id].file)]
      && forall file :: Taken(s', file) <==> Taken(s, file) && file != s.phase[id].file
  {
    RunInv(n, states, steps, i);
    UnlockKeeps(s, id);
    var s' := Do(s, UnlockRow(id));
    LiveRow(s, id);
    var e := s.phase[id].e;
    assert s'.table[e].count > 0;
    LockedIsTaken(s', e);
    forall file
      ensures Taken(s', file) <==> Taken(s, file) && file != s.phase[id].file
    {
      if file != s.phase[id].file && Taken(s, file) {
        var j :| j in s.phase && HasFile(s.phase[j], file);
        assert HasFile(s'.phase[j], file);
      }
    }
  }

  /** The first step of a request, the two unlock steps before the mutex is unlocked,
      and the last step, in which the row loses one reference. */
  lemma OtherStepsGive(n: nat, states: seq<State>, steps: seq<Step>, i: nat, s: State, a: Step)
    requires Run(n, states, steps) && i < |states| && s == states[i] && Enabled(s, a)
    ensures a.Start? ==> Do(s, a) == s.(phase := s.phase[a.id := Asked(a.op, a.file)])
    ensures a.StartUnlock? ==> Do(s, a) == s.(phase := s.phase[a.id := AskedUnlock(s.phase[a.id].e, s.phase[a.id].file)])
    ensures a.GetUnlock? ==>
      var ph := s.phase[a.id];
      Do(s, a) == s.(phase := s.phase[a.id := Unlocking(ph.e, ph.file, ph.e)])
    ensures a.Put? ==>
      var e := s.phase[a.id].e;
      && Do(s, a).phase == s.phase[a.id := Over]
      && Users(s, e) == Users(Do(s, a), e) + {a.id} && s.table[e].count == Do(s, a).table[e].count + 1
  {
    RunInv(n, states, steps, i);
    if a.GetUnlock? {
      LiveRow(s, a.id);
      FindsRow(s.table, s.phase[a.id].file, s.phase[a.id].e);
    }
  }

  // ---------- progress ----------

  /** A step of the server's own threads, not of a client. */
  predicate ServerStep(a: Step) {
    !a.Start? && !a.StartUnlock?
  }

  /** The session waits for a mutex that another session holds. */
  ghost predicate WaitsFor(s: State, id: int, holder: int) {
    && id in s.phase && s.phase[id].Got? && s.phase[id].op == Lock && holder != id
    && holder in s.phase && s.phase[holder].Held? && s.phase[holder].e == s.phase[id].e
    && s.phase[holder].file == s.phase[id].file
  }

  /** When the server can take no step, every session is over, holds its file, or
      waits for one whose client holds it: the server owes nobody a step. */
  lemma Idle(n: nat, states: seq<State>, steps: seq<Step>, i: nat, s: State, id: int)
    requires Run(n, states, steps) && i < |states| && s == states[i] && id in s.phase
    requires forall a :: ServerStep(a) ==> !Enabled(s, a)
    ensures s.phase[id].Over? || s.phase[id].Held? || exists holder :: WaitsFor(s, id, holder)
  {
    RunInv(n, states, steps, i);
    IdlePhase(s, id);
    if s.phase[id].Got? {
      var e := s.phase[id].e;
      assert 0 <= e < |s.table|;
      assert !Enabled(s, LockRow(id));
      var holder :| Holding(s, holder, e);
      IdlePhase(s, holder);
      assert s.phase[holder].file == s.table[e].name == s.phase[id].file;
      assert WaitsFor(s, id, holder);
    }
  }

  lemma IdlePhase(s: State, id: int)
    requires Inv(s) && id in s.phase && forall a :: ServerStep(a) ==> !Enabled(s, a)
    ensures s.phase[id].Over? || s.phase[id].Held? || (s.phase[id].Got? && s.phase[id].op == Lock)
  {
    assert !Enabled(s, Get(id)) && !Enabled(s, TryRow(id)) && !Enabled(s, GetUnlock(id));
    assert !Enabled(s, UnlockRow(id)) && !Enabled(s, Put(id));
  }

  /** How many server steps a session may still take before its client must act. */
  function Ahead(ph: Phase): nat {
    match ph
    case Asked(_, _) => 3
    case Got(_, _, _) => 2
    case TryFailed(_, _) => 1
    case Held(_, _) => 0
    case AskedUnlock(_, _) => 3
    case Unlocking(_, _, _) => 2
    case Released(_, _) => 1
    case Over => 0
  }

  /** Each server step brings one session nearer and leaves the others alone, so the
      server always comes to rest. */
  lemma ServerStepAdvances(s: State, a: Step)
    requires Inv(s) && Enabled(s, a) && ServerStep(a)
    ensures a.id in s.phase && Do(s, a).phase == s.phase[a.id := Do(s, a).phase[a.id]]
    ensures Ahead(Do(s, a).phase[a.id]) < Ahead(s.phase[a.id])
  {
  }

  /** The server steps the sessions of a state may still take, each counted once. */
  ghost function Owed(s: State): set<(int, int)> {
    set id, k | id in s.phase && 0 <= k < Ahead(s.phase[id]) :: (id, k)
  }

  /** The steps of a stretch in which only the server acts. */
  ghost predicate ServerRun(s: State, steps: seq<Step>)
    decreases |steps|
  {
    steps == [] || (ServerStep(steps[0]) && Enabled(s, steps[0]) && ServerRun(Do(s, steps[0]), steps[1..]))
  }

  lemma OwedFalls(s: State, a: Step)
    requires Inv(s) && Enabled(s, a) && ServerStep(a)
    ensures |Owed(Do(s, a))| < |Owed(s)|
  {
    hide Do, Inv, Enabled;
    ServerStepAdvances(s, a);
    var t := Do(s, a);
    var gone := (a.id, Ahead(t.phase[a.id]));
    assert gone in Owed(s) && gone !in Owed(t);
    forall e | e in Owed(t)
      ensures e in Owed(s)
    {
      assert e.0 in t.phase && 0 <= e.1 < Ahead(t.phase[e.0]);
      assert e == (e.0, e.1);
    }
    assert Owed(t) <= Owed(s) - {gone};
    assert Owed(s) == Owed(t) + (Owed(s) - Owed(t));
    assert gone in Owed(s) - Owed(t);
  }

  /** The server comes to rest: left alone by its clients it takes no more steps than
      its sessions owe, from any reachable state. */
  lemma {:induction false} ServerRests(s: State, steps: seq<Step>)
    requires Inv(s) && ServerRun(s, steps)
    ensures |steps| <= |Owed(s)|
    decreases |steps|
  {
    hide Do, Inv, Enabled, Owed;
    if steps != [] {
      StepKeeps(s, steps[0]);
      OwedFalls(s, steps[0]);
      ServerRests(Do(s, steps[0]), steps[1..]);
    }
  }
}
