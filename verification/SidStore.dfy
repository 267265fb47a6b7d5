/** The store of segment IDs: a counter and a map shared by any number of adapter replicas, which
    read and write them in separate steps, any of which can fail. */
module SidStore {
  import opened Basics

  const RESERVED := 100

  // ---------- the byte codec ----------

  type Bytes = seq<uint8>

  function Uint32ToBytes(i: uint32): (b: Bytes)
    ensures |b| == 4
  {
    [i % 256, i / 256 % 256, i / 256 / 256 % 256, i / 256 / 256 / 256]
  }

  /** Little-endian; reading fewer than four bytes panics in the original. */
  function BytesToUint32(b: Bytes): uint32
    requires |b| >= 4
  {
    var b0: int, b1: int, b2: int, b3: int := b[0], b[1], b[2], b[3];
    b0 + 256 * (b1 + 256 * (b2 + 256 * b3))
  }

  lemma LowByte(low: int, high: int)
    requires 0 <= low < 256
    ensures (low + 256 * high) % 256 == low && (low + 256 * high) / 256 == high
  {
  }

  lemma CodecRoundTrip(i: uint32)
    ensures BytesToUint32(Uint32ToBytes(i)) == i
  {
    var b := Uint32ToBytes(i);
    assert i == b[0] + 256 * (i / 256);
    assert i / 256 == b[1] + 256 * (i / 256 / 256);
    assert i / 256 / 256 == b[2] + 256 * (i / 256 / 256 / 256);
  }

  lemma CodecRoundTripBack(b: Bytes)
    requires |b| == 4
    ensures Uint32ToBytes(BytesToUint32(b)) == b
  {
    var b0: int, b1: int, b2: int, b3: int := b[0], b[1], b[2], b[3];
    LowByte(b0, b1 + 256 * (b2 + 256 * b3));
    LowByte(b1, b2 + 256 * b3);
    LowByte(b2, b3);
  }

  /** The lowest byte comes first. */
  lemma LittleEndian(b: Bytes)
    requires |b| == 4
    ensures b[0] == BytesToUint32(b) % 256 && BytesToUint32(b[1..] + [0]) == BytesToUint32(b) / 256
  {
    var b0: int, b1: int, b2: int, b3: int := b[0], b[1], b[2], b[3];
    LowByte(b0, b1 + 256 * (b2 + 256 * b3));
  }

  ghost predicate WellFormed(entries: map<string, Bytes>) {
    forall k | k in entries :: |entries[k]| == 4
  }

  /** The map as its clients see it: a SID for each switch. */
  function View(entries: map<string, Bytes>): (sids: map<string, uint32>)
    requires WellFormed(entries)
    ensures sids.Keys == entries.Keys
  {
    map k | k in entries :: BytesToUint32(entries[k])
  }

  lemma ViewOfPut(entries: map<string, Bytes>, id: string, sid: uint32)
    requires WellFormed(entries)
    ensures WellFormed(entries[id := Uint32ToBytes(sid)])
    ensures View(entries[id := Uint32ToBytes(sid)]) == View(entries)[id := sid]
  {
    CodecRoundTrip(sid);
  }

  // ---------- the protocol ----------

  /** Where a replica is. `Starting` has read a counter below the reserved range and is about to
      set it; `Missing` did not find the switch; `Numbered` drew a number and is about to store it. */
  datatype Client =
    | Down
    | Starting
    | Ready
    | Looking(id: string)
    | Missing(id: string)
    | Numbered(id: string, number: nat)

  /** `answers` records the successful results of Get, latest last. */
  datatype State = State(counter: nat, entries: map<string, Bytes>, clients: seq<Client>,
                         answers: seq<(string, uint32)>)

  datatype Step =
    | Connect(c: nat)                               // NewAtomixStore reads the counter
    | Initialize(c: nat, effect: Effect)            // and sets it
    | Begin(c: nat, id: string)                     // Get is called
    | Read(c: nat, failed: bool)                    // sidMap.Get
    | Increment(c: nat, effect: Effect)             // nextSID.Increment
    | Store(c: nat, effect: Effect)                 // sidMap.Put
    | Crash(c: nat)

  predicate Enabled(s: State, step: Step) {
    && step.c < |s.clients|
    && match step {
         case Connect(c) => s.clients[c].Down?
         case Initialize(c, _) => s.clients[c].Starting?
         case Begin(c, id) => s.clients[c].Ready? && id != ""
         case Read(c, _) => s.clients[c].Looking?
         case Increment(c, _) => s.clients[c].Missing?
         case Store(c, _) => s.clients[c].Numbered?
         case Crash(c) => true
       }
  }

  function Move(s: State, c: nat, client: Client): State
    requires c < |s.clients|
  {
    s.(clients := s.clients[c := client])
  }

  function Apply(s: State, step: Step): State
    requires Enabled(s, step)
  {
    var c := step.c;
    match step
    case Connect(_) => Move(s, c, if s.counter < RESERVED then Starting else Ready)
    case Initialize(_, e) =>
      var s' := if e.Happened() then s.(counter := RESERVED) else s;
      Move(s', c, if e.Reported() then Ready else Down)
    case Begin(_, id) => Move(s, c, Looking(id))
    case Read(_, failed) =>
      var id := s.clients[c].id;
      if failed then Move(s, c, Ready)
      else if id in s.entries then
        Move(s.(answers := s.answers + [(id, if |s.entries[id]| >= 4 then BytesToUint32(s.entries[id]) else 0)]), c,
           Ready)
      else Move(s, c, Missing(id))
    case Increment(_, e) =>
      var s' := if e.Happened() then s.(counter := s.counter + 1) else s;
      Move(s', c, if e.Reported() then Numbered(s.clients[c].id, s.counter + 1) else Ready)
    case Store(_, e) =>
      var id, sid := s.clients[c].id, s.clients[c].number % TWO_32;
      var s' := if e.Happened() then s.(entries := s.entries[id := Uint32ToBytes(sid)]) else s;
      var s'' := if e.Reported() then s'.(answers := s.answers + [(id, sid)]) else s';
      Move(s'', c, Ready)
    case Crash(_) => Move(s, c, Down)
  }

  function Init(n: nat): State {
    State(0, map[], seq(n, _ => Down), [])
  }

  /** The state after these steps, if each of them was enabled in turn. */
  function Exec(s: State, steps: seq<Step>): Option<State> {
    if steps == [] then Some(s)
    else
      var before := Exec(s, steps[..|steps| - 1]);
      if before.Some? && Enabled(before.value, Last(steps)) then Some(Apply(before.value, Last(steps)))
      else None
  }

  predicate Run(n: nat, steps: seq<Step>, s: State) {
    Exec(Init(n), steps) == Some(s)
  }

  /** No replica sets the counter once a number beyond the reserved ones has been drawn. */
  predicate InitOnTime(s: State, step: Step) {
    step.Initialize? ==> s.counter <= RESERVED
  }

  /** Initialisation precedes allocation at every step of the run. */
  predicate InitBeforeAllocation(n: nat, steps: seq<Step>) {
    steps == []
    || (InitBeforeAllocation(n, steps[..|steps| - 1])
        && match Exec(Init(n), steps[..|steps| - 1]) {
             case Some(s) => InitOnTime(s, Last(steps))
             case None => true
           })
  }

  // ---------- uniqueness ----------

  predicate Serving(c: Client) {
    !c.Down? && !c.Starting?
  }

  /** Numbers are drawn once: whatever is stored or about to be stored differs from everything else
      that is, and lies between the reserved numbers and the counter. */
  ghost predicate Unique(s: State) {
    && WellFormed(s.entries)
    && (forall c | 0 <= c < |s.clients| :: Serving(s.clients[c]) ==> RESERVED <= s.counter)
    && (s.entries != map[] ==> RESERVED <= s.counter)
    && (forall c | 0 <= c < |s.clients| && s.clients[c].Numbered? ::
          RESERVED < s.clients[c].number <= s.counter)
    && (forall c, d | 0 <= c < d < |s.clients| && s.clients[c].Numbered? && s.clients[d].Numbered? ::
          s.clients[c].number != s.clients[d].number)
    && (forall k | k in s.entries :: RESERVED < BytesToUint32(s.entries[k]) <= s.counter)
    && (forall k, l | k in s.entries && l in s.entries && k != l ::
          BytesToUint32(s.entries[k]) != BytesToUint32(s.entries[l]))
    && (forall c, k | 0 <= c < |s.clients| && s.clients[c].Numbered? && k in s.entries ::
          BytesToUint32(s.entries[k]) != s.clients[c].number)
  }

  lemma UniqueStep(s: State, step: Step)
    requires Unique(s) && Enabled(s, step) && InitOnTime(s, step)
    requires Apply(s, step).counter < TWO_32
    ensures Unique(Apply(s, step))
  {
    if step.Increment? {
      UniqueIncrement(s, step);
    } else if step.Store? {
      UniqueStore(s, step);
    } else {
      UniqueOther(s, step);
    }
  }

  lemma UniqueOther(s: State, step: Step)
    requires Unique(s) && Enabled(s, step) && InitOnTime(s, step) && !step.Increment? && !step.Store?
    ensures Unique(Apply(s, step))
  {
    hide Uint32ToBytes, BytesToUint32;
    var s' := Apply(s, step);
    assert s'.entries == s.entries && RESERVED <= s.counter ==> s'.counter == s.counter;
    assert !s'.clients[step.c].Numbered?;
    assert forall c | 0 <= c < |s.clients| && c != step.c :: s'.clients[c] == s.clients[c];
  }

  lemma UniqueIncrement(s: State, step: Step)
    requires Unique(s) && Enabled(s, step) && step.Increment?
    ensures Unique(Apply(s, step))
  {
    var s' := Apply(s, step);
    assert forall c | 0 <= c < |s.clients| && c != step.c :: s'.clients[c] == s.clients[c];
  }

  lemma UniqueStore(s: State, step: Step)
    requires Unique(s) && Enabled(s, step) && step.Store?
    requires s.counter < TWO_32
    ensures Unique(Apply(s, step))
  {
    hide Uint32ToBytes, BytesToUint32;
    var s' := Apply(s, step);
    var id, number := s.clients[step.c].id, s.clients[step.c].number;
    CodecRoundTrip(number);
    assert forall c | 0 <= c < |s.clients| && c != step.c :: s'.clients[c] == s.clients[c];
    assert s'.clients[step.c].Ready?;
    if step.effect.Happened() {
      assert BytesToUint32(s'.entries[id]) == number;
      assert forall k | k in s'.entries && k != id :: k in s.entries && s'.entries[k] == s.entries[k];
    }
  }

  /** The counter never goes down in such a run, so a bound on its last value bounds them all. */
  lemma CounterGrows(s: State, step: Step)
    requires Enabled(s, step) && InitOnTime(s, step)
    ensures s.counter <= Apply(s, step).counter
  {
  }

  lemma {:induction false} UniqueThroughout(n: nat, steps: seq<Step>, s: State)
    requires Run(n, steps, s) && InitBeforeAllocation(n, steps) && s.counter < TWO_32
    ensures Unique(s)
    decreases |steps|
  {
    if steps != [] {
      var before := Exec(Init(n), steps[..|steps| - 1]).value;
      CounterGrows(before, Last(steps));
      UniqueThroughout(n, steps[..|steps| - 1], before);
      UniqueStep(before, Last(steps));
    }
  }

  /** However many replicas interleave their calls, and whichever of them fail or crash: SIDs of
      different switches differ, and all of them lie in 101..counter. */
  lemma SidsUnique(n: nat, steps: seq<Step>, s: State)
    requires Run(n, steps, s) && InitBeforeAllocation(n, steps) && s.counter < TWO_32
    ensures WellFormed(s.entries)
    ensures forall k | k in s.entries :: 101 <= View(s.entries)[k] <= s.counter
    ensures forall k, l | k in s.entries && l in s.entries && k != l ::
              View(s.entries)[k] != View(s.entries)[l]
  {
    UniqueThroughout(n, steps, s);
  }

  /** Nobody has been told this number for any other switch. */
  ghost predicate Free(answers: seq<(string, uint32)>, id: string, number: int) {
    forall a | a in answers && a.1 == number :: a.0 == id
  }

  /** Nor has any replica ever been told a number that another switch has, had or may get. */
  ghost predicate Told(s: State) {
    && WellFormed(s.entries)
    && (forall a | a in s.answers :: RESERVED < a.1 <= s.counter && Free(s.answers, a.0, a.1))
    && (forall k | k in s.entries :: Free(s.answers, k, BytesToUint32(s.entries[k])))
    && (forall c | 0 <= c < |s.clients| && s.clients[c].Numbered? ::
          forall id :: Free(s.answers, id, s.clients[c].number))
  }

  lemma FreeAppend(answers: seq<(string, uint32)>, answer: (string, uint32), id: string, number: int)
    ensures Free(answers + [answer], id, number) <==>
            Free(answers, id, number) && (answer.1 == number ==> answer.0 == id)
  {
    assert forall a :: a in answers + [answer] <==> a in answers || a == answer;
  }

  lemma ToldMore(s: State, answer: (string, uint32))
    requires Told(s) && RESERVED < answer.1 <= s.counter && Free(s.answers, answer.0, answer.1)
    requires forall k | k in s.entries && BytesToUint32(s.entries[k]) == answer.1 :: k == answer.0
    requires forall c | 0 <= c < |s.clients| && s.clients[c].Numbered? :: s.clients[c].number != answer.1
    ensures Told(s.(answers := s.answers + [answer]))
  {
    hide Uint32ToBytes, BytesToUint32;
    var answers := s.answers + [answer];
    assert forall a :: a in answers <==> a in s.answers || a == answer;
    forall id, number: int
      ensures Free(answers, id, number) <==> Free(s.answers, id, number) && (answer.1 == number ==> answer.0 == id)
    {
      FreeAppend(s.answers, answer, id, number);
    }
    hide Free;
    assert forall a | a in s.answers :: Free(s.answers, a.0, a.1);
    forall a | a in s.answers && a.1 == answer.1
      ensures a.0 == answer.0
    {
      FreeMeans(s.answers, answer.0, answer.1, a);
    }
  }

  lemma FreeMeans(answers: seq<(string, uint32)>, id: string, number: int, a: (string, uint32))
    requires Free(answers, id, number) && a in answers
    ensures a.1 == number ==> a.0 == id
  {
  }

  lemma ToldStep(s: State, step: Step)
    requires Unique(s) && Told(s) && Enabled(s, step) && InitOnTime(s, step)
    requires Apply(s, step).counter < TWO_32
    ensures Told(Apply(s, step))
  {
    hide Uint32ToBytes, BytesToUint32;
    var s', c := Apply(s, step), step.c;
    if step.Store? {
      ToldStore(s, step);
    } else if step.Increment? {
      ToldIncrement(s, step);
    } else if step.Read? && !step.failed && s.clients[c].id in s.entries {
      hide Free;
      var id := s.clients[c].id;
      ToldMore(s, (id, BytesToUint32(s.entries[id])));
      ToldMoved(s.(answers := s'.answers), c, Ready);
    } else {
      hide Free;
      EmptyOrHasElement(s.answers);
      ToldMoved(s.(counter := s'.counter), c, s'.clients[c]);
    }
  }

  lemma ToldMoved(s: State, c: nat, client: Client)
    requires Told(s) && c < |s.clients| && !client.Numbered?
    ensures Told(Move(s, c, client))
  {
    hide Uint32ToBytes, BytesToUint32, Free;
    var s' := Move(s, c, client);
    assert forall d | 0 <= d < |s.clients| && d != c :: s'.clients[d] == s.clients[d];
  }

  lemma ToldIncrement(s: State, step: Step)
    requires Told(s) && Enabled(s, step) && step.Increment?
    ensures Told(Apply(s, step))
  {
    hide Uint32ToBytes, BytesToUint32;
    var s' := Apply(s, step);
    assert forall d | 0 <= d < |s.clients| && d != step.c :: s'.clients[d] == s.clients[d];
    var number := s.counter + 1;
    assert forall id :: Free(s.answers, id, number);
    hide Free;
  }

  lemma ToldStore(s: State, step: Step)
    requires Unique(s) && Told(s) && Enabled(s, step) && step.Store? && s.counter < TWO_32
    ensures Told(Apply(s, step))
  {
    hide Uint32ToBytes, BytesToUint32, Free;
    var s', c := Apply(s, step), step.c;
    var id, number := s.clients[c].id, s.clients[c].number;
    CodecRoundTrip(number);
    var moved := Move(s, c, Ready);
    ToldMoved(s, c, Ready);
    var stored := moved.(entries := s'.entries);
    ToldStored(moved, stored, id, number);
    if step.effect.Reported() {
      assert stored.entries == s.entries[id := Uint32ToBytes(number)];
      ToldMore(stored, (id, number));
    }
  }

  lemma ToldStored(s: State, s': State, id: string, number: uint32)
    requires Told(s) && Free(s.answers, id, number)
    requires s' == s || s' == s.(entries := s.entries[id := Uint32ToBytes(number)])
    ensures Told(s')
  {
    CodecRoundTrip(number);
    hide Uint32ToBytes, BytesToUint32, Free;
  }

  lemma {:induction false} ToldThroughout(n: nat, steps: seq<Step>, s: State)
    requires Run(n, steps, s) && InitBeforeAllocation(n, steps) && s.counter < TWO_32
    ensures Told(s)
    decreases |steps|
  {
    hide Unique, Enabled, Apply;
    if steps != [] {
      var before := Exec(Init(n), steps[..|steps| - 1]).value;
      CounterGrows(before, Last(steps));
      UniqueThroughout(n, steps[..|steps| - 1], before);
      ToldThroughout(n, steps[..|steps| - 1], before);
      ToldStep(before, Last(steps));
    }
  }

  /** The same holds of everything Get has ever returned, even if the switch has since been given
      another SID: two switches are never told the same one. */
  lemma AnswersUnique(n: nat, steps: seq<Step>, s: State, a: nat, b: nat)
    requires Run(n, steps, s) && InitBeforeAllocation(n, steps) && s.counter < TWO_32
    requires a < |s.answers| && b < |s.answers| && s.answers[a].0 != s.answers[b].0
    ensures s.answers[a].1 != s.answers[b].1 && 101 <= s.answers[a].1 <= s.counter
  {
    ToldThroughout(n, steps, s);
    assert s.answers[a] in s.answers && s.answers[b] in s.answers;
    FreeMeans(s.answers, s.answers[a].0, s.answers[a].1, s.answers[b]);
  }

  /** Some run of `n` replicas reaches `s`; if `onTime`, one that initialises before it allocates. */
  ghost predicate Reachable(n: nat, onTime: bool, s: State) {
    exists steps :: Run(n, steps, s) && (onTime ==> InitBeforeAllocation(n, steps))
  }

  lemma ReachInit(n: nat, onTime: bool)
    ensures Reachable(n, onTime, Init(n))
  {
    assert Run(n, [], Init(n));
  }

  lemma Reach(n: nat, onTime: bool, s: State, step: Step, s': State)
    requires Reachable(n, onTime, s) && Enabled(s, step) && s' == Apply(s, step)
    requires onTime ==> InitOnTime(s, step)
    ensures Reachable(n, onTime, s')
  {
    var steps :| Run(n, steps, s) && (onTime ==> InitBeforeAllocation(n, steps));
    var steps' := steps + [step];
    assert steps'[..|steps|] == steps;
    assert Run(n, steps', s');
  }

  /** A whole Get of a switch that is not in the map yet, without failures or interference. */
  lemma Allocate(n: nat, onTime: bool, s: State, c: nat, id: string, s': State)
    requires Reachable(n, onTime, s) && c < |s.clients| && s.clients[c].Ready? && id != "" && id !in s.entries
    requires var sid := (s.counter + 1) % TWO_32;
             s' == State(s.counter + 1, s.entries[id := Uint32ToBytes(sid)], s.clients, s.answers + [(id, sid)])
    ensures Reachable(n, onTime, s')
  {
    hide Reachable, Uint32ToBytes, BytesToUint32;
    var s1 := Apply(s, Begin(c, id));
    Reach(n, onTime, s, Begin(c, id), s1);
    var s2 := Apply(s1, Read(c, false));
    Reach(n, onTime, s1, Read(c, false), s2);
    var s3 := Apply(s2, Increment(c, Applied));
    Reach(n, onTime, s2, Increment(c, Applied), s3);
    assert Apply(s3, Store(c, Applied)) == s';
    Reach(n, onTime, s3, Store(c, Applied), s');
  }

  /** A replica whose initialisation is overtaken: it reads the counter, another replica allocates,
      and it sets the counter back. Two switches then share SID 101. */
  lemma LateInitializationBreaksUniqueness(s: State)
    requires s == State(101, map["a" := Uint32ToBytes(101), "b" := Uint32ToBytes(101)], [Ready, Ready],
                        [("a", 101), ("b", 101)])
    ensures Reachable(2, false, s)
    ensures WellFormed(s.entries) && View(s.entries) == map["a" := 101, "b" := 101]
  {
    hide Reachable, Uint32ToBytes, BytesToUint32;
    var a := map["a" := Uint32ToBytes(101)];
    var s1, s2 := State(0, map[], [Starting, Down], []), State(0, map[], [Starting, Starting], []);
    var s3 := State(100, map[], [Ready, Starting], []);
    var s4, s5 := State(101, a, [Ready, Starting], [("a", 101)]), State(100, a, [Ready, Ready], [("a", 101)]);
    ReachInit(2, false);
    Reach(2, false, Init(2), Connect(0), s1);
    Reach(2, false, s1, Connect(1), s2);
    Reach(2, false, s2, Initialize(0, Applied), s3);
    Allocate(2, false, s3, 0, "a", s4);
    Reach(2, false, s4, Initialize(1, Applied), s5);
    Allocate(2, false, s5, 1, "b", s);
    CodecRoundTrip(101);
  }

  lemma {:induction false} FreshId(keys: set<string>) returns (id: string)
    ensures id != "" && id !in keys
  {
    id := LongerThan(keys);
  }

  lemma {:induction false} LongerThan(keys: set<string>) returns (id: string)
    ensures id != "" && forall k | k in keys :: |k| < |id|
    decreases |keys|
  {
    if keys == {} {
      id := "a";
    } else {
      var k :| k in keys;
      var longer := LongerThan(keys - {k});
      id := longer + k + "a";
    }
  }

  /** Numbers are lost when an increment takes effect but is reported as failed. */
  lemma {:induction false} Burn(n: nat, onTime: bool, s: State, c: nat, id: string, count: nat)
    requires Reachable(n, onTime, s) && c < |s.clients| && s.clients[c].Ready? && id != "" && id !in s.entries
    ensures Reachable(n, onTime, s.(counter := s.counter + count))
    decreases count
  {
    hide Reachable, Uint32ToBytes, BytesToUint32;
    if count > 0 {
      var s1 := Apply(s, Begin(c, id));
      Reach(n, onTime, s, Begin(c, id), s1);
      var s2 := Apply(s1, Read(c, false));
      Reach(n, onTime, s1, Read(c, false), s2);
      var s3 := s.(counter := s.counter + 1);
      assert Apply(s2, Increment(c, Unacknowledged)).clients == s.clients;
      Reach(n, onTime, s2, Increment(c, Unacknowledged), s3);
      Burn(n, onTime, s3, c, id, count - 1);
    }
  }

  /** The counter has 64 bits and a SID 32: once the counter passes 2^32, SIDs are used again, even by
      a single replica that initialised in time. */
  lemma TruncationBreaksUniqueness() returns (s: State)
    ensures Reachable(1, true, s) && s.counter == TWO_32 + 101
    ensures WellFormed(s.entries) && View(s.entries) == map["a" := 101, "b" := 101]
  {
    hide Reachable, Uint32ToBytes, BytesToUint32;
    var a := map["a" := Uint32ToBytes(101)];
    ReachInit(1, true);
    var s1, s2 := State(0, map[], [Starting], []), State(100, map[], [Ready], []);
    Reach(1, true, Init(1), Connect(0), s1);
    Reach(1, true, s1, Initialize(0, Applied), s2);
    var s3 := State(101, a, [Ready], [("a", 101)]);
    Allocate(1, true, s2, 0, "a", s3);
    Burn(1, true, s3, 0, "b", TWO_32 - 1);
    s := State(TWO_32 + 101, a["b" := Uint32ToBytes(101)], [Ready], [("a", 101), ("b", 101)]);
    Allocate(1, true, s3.(counter := TWO_32 + 100), 0, "b", s);
    CodecRoundTrip(101);
  }

  /** Nothing is drawn or stored before the first numbers are set aside, wrapped or not. */
  ghost predicate Reserved(s: State) {
    && WellFormed(s.entries)
    && (s.counter < RESERVED ==> s.entries == map[] && forall c | 0 <= c < |s.clients| :: !Serving(s.clients[c]))
  }

  lemma ReservedStep(s: State, step: Step)
    requires Reserved(s) && Enabled(s, step) && InitOnTime(s, step)
    ensures Reserved(Apply(s, step))
  {
    hide Uint32ToBytes, BytesToUint32;
    assert forall d | 0 <= d < |s.clients| && d != step.c :: Apply(s, step).clients[d] == s.clients[d];
  }

  lemma {:induction false} ReservedThroughout(n: nat, steps: seq<Step>, s: State)
    requires Run(n, steps, s) && InitBeforeAllocation(n, steps)
    ensures Reserved(s)
    decreases |steps|
  {
    hide Enabled, Apply;
    if steps != [] {
      var before := Exec(Init(n), steps[..|steps| - 1]).value;
      ReservedThroughout(n, steps[..|steps| - 1], before);
      ReservedStep(before, Last(steps));
    }
  }

  lemma ReachedReserved(n: nat, s: State)
    requires Reachable(n, true, s)
    ensures Reserved(s)
  {
    var steps :| Run(n, steps, s) && InitBeforeAllocation(n, steps);
    ReservedThroughout(n, steps, s);
  }

  /** Not only that: from every state reached with timely initialisation, however small the counter is,
      any replica can go on until another switch gets a SID that is taken. */
  lemma WrapIsFatal(n: nat, s: State, c: nat, id: string) returns (s': State, other: string)
    requires Reachable(n, true, s) && c < |s.clients| && id in s.entries
    ensures Reachable(n, true, s') && other != id
    ensures other in s'.entries && id in s'.entries && s'.entries[other] == s'.entries[id] == s.entries[id]
  {
    hide Reachable, Uint32ToBytes, BytesToUint32;
    ReachedReserved(n, s);
    var sid: int := BytesToUint32(s.entries[id]);
    other := FreshId(s.entries.Keys);
    var s1, s2 := Apply(s, Crash(c)), Apply(Apply(s, Crash(c)), Connect(c));
    Reach(n, true, s, Crash(c), s1);
    Reach(n, true, s1, Connect(c), s2);
    var count := (sid - s.counter - 1) % TWO_32;
    Burn(n, true, s2, c, other, count);
    var s3 := s2.(counter := s2.counter + count);
    WrapsTo(sid, s.counter + 1, count);
    s' := State(s3.counter + 1, s3.entries[other := Uint32ToBytes(sid)], s3.clients, s3.answers + [(other, sid)]);
    Allocate(n, true, s3, c, other, s');
    CodecRoundTripBack(s.entries[id]);
  }

  lemma WrapsTo(sid: uint32, next: nat, count: nat)
    requires count == (sid - next) % TWO_32
    ensures (next + count) % TWO_32 == sid
  {
  }

  /** The hypothesis cannot be weakened: as soon as any SID is stored, a replica that is still about
      to set the counter can, whatever the state is otherwise, make two switches share that SID. */
  lemma ResetIsFatal(n: nat, s: State, c: nat, id: string) returns (s': State, other: string)
    requires Reachable(n, false, s) && c < |s.clients| && s.clients[c].Starting?
    requires WellFormed(s.entries) && id in s.entries && RESERVED < BytesToUint32(s.entries[id])
    ensures Reachable(n, false, s') && other != id
    ensures other in s'.entries && id in s'.entries && s'.entries[other] == s'.entries[id] == s.entries[id]
  {
    hide Reachable, Uint32ToBytes, BytesToUint32;
    var sid := BytesToUint32(s.entries[id]);
    other := FreshId(s.entries.Keys);
    var s1 := Apply(s, Initialize(c, Applied));
    Reach(n, false, s, Initialize(c, Applied), s1);
    Burn(n, false, s1, c, other, sid - RESERVED - 1);
    var s2 := s1.(counter := sid - 1);
    s' := State(sid, s2.entries[other := Uint32ToBytes(sid)], s2.clients, s2.answers + [(other, sid)]);
    Allocate(n, false, s2, c, other, s');
    CodecRoundTripBack(s.entries[id]);
  }

  // ---------- stability ----------

  /** Between a lookup that found nothing and the store that follows it. */
  predicate Allocating(c: Client, id: string) {
    (c.Missing? || c.Numbered?) && c.id == id
  }

  /** A lookup does not miss a switch for which another replica is already allocating a SID. */
  predicate Alone(s: State, step: Step)
    requires Enabled(s, step)
  {
    step.Read? && !step.failed && s.clients[step.c].id !in s.entries ==>
      forall d | 0 <= d < |s.clients| && d != step.c :: !Allocating(s.clients[d], s.clients[step.c].id)
  }

  predicate NoOverlap(n: nat, steps: seq<Step>) {
    steps == []
    || (NoOverlap(n, steps[..|steps| - 1])
        && match Exec(Init(n), steps[..|steps| - 1]) {
             case Some(s) => Enabled(s, Last(steps)) ==> Alone(s, Last(steps))
             case None => true
           })
  }

  /** Whoever is about to store a SID does so for a switch that has none, and nobody else is. */
  ghost predicate Stable(s: State) {
    && WellFormed(s.entries)
    && (forall c, id | 0 <= c < |s.clients| && Allocating(s.clients[c], id) :: id !in s.entries)
    && (forall c, d, id | 0 <= c < d < |s.clients| && Allocating(s.clients[c], id) :: !Allocating(s.clients[d], id))
    && (forall i | 0 <= i < |s.answers| ::
          s.answers[i].0 in s.entries && BytesToUint32(s.entries[s.answers[i].0]) == s.answers[i].1)
  }

  lemma StableStep(s: State, step: Step)
    requires Stable(s) && Enabled(s, step) && Alone(s, step)
    ensures Stable(Apply(s, step))
    ensures Extends(s.entries, Apply(s, step).entries)
  {
    if step.Store? {
      StableStore(s, step);
    } else {
      StableOther(s, step);
    }
  }

  lemma StableOther(s: State, step: Step)
    requires Stable(s) && Enabled(s, step) && Alone(s, step) && !step.Store?
    ensures Stable(Apply(s, step)) && Apply(s, step).entries == s.entries
  {
    hide Uint32ToBytes, BytesToUint32;
    var s', c := Apply(s, step), step.c;
    assert forall d | 0 <= d < |s.clients| && d != c :: s'.clients[d] == s.clients[d];
    assert forall id | Allocating(s'.clients[c], id) ::
        Allocating(s.clients[c], id) || (step.Read? && !step.failed && s.clients[c].id == id && id !in s.entries);
  }

  lemma StableStore(s: State, step: Step)
    requires Stable(s) && Enabled(s, step) && step.Store?
    ensures Stable(Apply(s, step)) && Extends(s.entries, Apply(s, step).entries)
  {
    hide Uint32ToBytes, BytesToUint32;
    var s', c, id := Apply(s, step), step.c, s.clients[step.c].id;
    CodecRoundTrip(s.clients[c].number % TWO_32);
    assert Allocating(s.clients[c], id);
    assert forall d | 0 <= d < |s.clients| && d != c :: s'.clients[d] == s.clients[d];
    assert forall x :: !Allocating(s'.clients[c], x);
  }

  lemma {:induction false} StableThroughout(n: nat, steps: seq<Step>, s: State)
    requires Run(n, steps, s) && NoOverlap(n, steps)
    ensures Stable(s)
    decreases |steps|
  {
    if steps != [] {
      var before := Exec(Init(n), steps[..|steps| - 1]).value;
      StableThroughout(n, steps[..|steps| - 1], before);
      StableStep(before, Last(steps));
    }
  }

  /** Once stored, a SID is never changed again, however the run goes on. */
  lemma {:induction false} SidsOnlyAdded(n: nat, steps: seq<Step>, s: State, i: nat, earlier: State)
    requires Run(n, steps, s) && NoOverlap(n, steps)
    requires i <= |steps| && Run(n, steps[..i], earlier)
    ensures WellFormed(earlier.entries) && WellFormed(s.entries)
    ensures Extends(View(earlier.entries), View(s.entries))
    decreases |steps|
  {
    StableThroughout(n, steps, s);
    if i == |steps| {
      assert steps[..i] == steps;
    } else {
      var front := steps[..|steps| - 1];
      var before := Exec(Init(n), front).value;
      assert front[..i] == steps[..i];
      SidsOnlyAdded(n, front, before, i, earlier);
      StableThroughout(n, front, before);
      StableStep(before, Last(steps));
    }
  }

  /** All successful Gets of a switch, on whichever replicas and at whatever times, agree. */
  lemma SidsStable(n: nat, steps: seq<Step>, s: State, a: nat, b: nat)
    requires Run(n, steps, s) && NoOverlap(n, steps)
    requires a < |s.answers| && b < |s.answers| && s.answers[a].0 == s.answers[b].0
    ensures s.answers[a].1 == s.answers[b].1
  {
    StableThroughout(n, steps, s);
  }

  /** Each of these SIDs has been the answer of some Get. */
  ghost predicate Answered(told: map<string, uint32>, s: State) {
    forall id | id in told :: (id, told[id]) in s.answers
  }

  /** The SIDs that Get answered are those of the store, then and ever after. */
  lemma ToldSidsStand(n: nat, steps: seq<Step>, s: State, told: map<string, uint32>)
    requires Run(n, steps, s) && NoOverlap(n, steps)
    requires Answered(told, s)
    ensures WellFormed(s.entries) && Extends(told, View(s.entries))
  {
    StableThroughout(n, steps, s);
    forall id | id in told
      ensures id in s.entries && View(s.entries)[id] == told[id]
    {
      var i :| 0 <= i < |s.answers| && s.answers[i] == (id, told[id]);
    }
  }

  lemma ReachedUnique(n: nat, s: State)
    requires Reachable(n, true, s) && s.counter < TWO_32
    ensures Unique(s)
  {
    var steps :| Run(n, steps, s) && InitBeforeAllocation(n, steps);
    UniqueThroughout(n, steps, s);
  }

  /** The rest of a Get that has missed its switch, without failures or interference. */
  lemma FinishGet(n: nat, s: State, c: nat, id: string) returns (s': State, sid: uint32)
    requires Reachable(n, true, s) && c < |s.clients| && Allocating(s.clients[c], id) && s.counter + 1 < TWO_32
    ensures sid == (if s.clients[c].Numbered? then s.clients[c].number else s.counter + 1) % TWO_32
    ensures s' == State(s.counter + if s.clients[c].Numbered? then 0 else 1, s.entries[id := Uint32ToBytes(sid)],
                        s.clients[c := Ready], s.answers + [(id, sid)])
    ensures Reachable(n, true, s')
  {
    hide Reachable, Uint32ToBytes, BytesToUint32;
    var t := s;
    if s.clients[c].Missing? {
      t := Apply(s, Increment(c, Applied));
      Reach(n, true, s, Increment(c, Applied), t);
    }
    s' := Apply(t, Store(c, Applied));
    Reach(n, true, t, Store(c, Applied), s');
    sid := t.clients[c].number % TWO_32;
    assert s'.clients == s.clients[c := Ready];
  }

  /** The condition is the exact one: in any state reached with timely initialisation, a lookup that
      misses a switch for which another replica is allocating leads to two different answers, and to
      a SID that changes in the store. */
  lemma OverlapIsFatal(n: nat, s: State, step: Step) returns (between: State, s': State, a: uint32, b: uint32)
    requires Reachable(n, true, s) && Enabled(s, step) && !Alone(s, step) && s.counter + 2 < TWO_32
    ensures Reachable(n, true, between) && Reachable(n, true, s') && a != b
    ensures var id := s.clients[step.c].id;
            && s'.answers == s.answers + [(id, a)] + [(id, b)]
            && id in between.entries && between.entries[id] == Uint32ToBytes(a)
            && id in s'.entries && s'.entries[id] == Uint32ToBytes(b)
  {
    hide Reachable, Uint32ToBytes, BytesToUint32;
    var c, id := step.c, s.clients[step.c].id;
    var d :| 0 <= d < |s.clients| && d != c && Allocating(s.clients[d], id);
    ReachedUnique(n, s);
    var s1 := Apply(s, step);
    Reach(n, true, s, step, s1);
    assert s1.clients[d] == s.clients[d] && s1.clients[c] == Missing(id);
    between, a := FinishGet(n, s1, d, id);
    assert between.clients[c] == Missing(id);
    s', b := FinishGet(n, between, c, id);
  }

  /** For example, two replicas that look up a new switch at the same time. */
  lemma OverlapBreaksStability(s: State)
    requires s == State(102, map["a" := Uint32ToBytes(102)], [Ready, Ready], [("a", 101), ("a", 102)])
    ensures Reachable(2, true, s)
  {
    hide Reachable, Uint32ToBytes, BytesToUint32;
    var s1, s2 := State(0, map[], [Starting, Down], []), State(100, map[], [Ready, Down], []);
    var s3, s4 := State(100, map[], [Ready, Ready], []), State(100, map[], [Ready, Looking("a")], []);
    var s5 := State(100, map[], [Ready, Missing("a")], []);
    var s6 := State(101, map["a" := Uint32ToBytes(101)], [Ready, Missing("a")], [("a", 101)]);
    var s7 := State(102, map["a" := Uint32ToBytes(101)], [Ready, Numbered("a", 102)], [("a", 101)]);
    ReachInit(2, true);
    Reach(2, true, Init(2), Connect(0), s1);
    Reach(2, true, s1, Initialize(0, Applied), s2);
    Reach(2, true, s2, Connect(1), s3);
    Reach(2, true, s3, Begin(1, "a"), s4);
    Reach(2, true, s4, Read(1, false), s5);
    Allocate(2, true, s5, 0, "a", s6);
    Reach(2, true, s6, Increment(1, Applied), s7);
    Reach(2, true, s7, Store(1, Applied), s);
  }

  // ---------- one replica on its own ----------

  lemma ExecStep(s0: State, steps: seq<Step>, s: State, step: Step)
    requires Exec(s0, steps) == Some(s) && Enabled(s, step)
    ensures Exec(s0, steps + [step]) == Some(Apply(s, step))
  {
    assert (steps + [step])[..|steps|] == steps;
  }

  function Solo(counter: nat, entries: map<string, Bytes>, client: Client): State {
    State(counter, entries, [client], [])
  }

  /** What the replicas share, and how many remote operations there have been so far. */
  datatype Shared = Shared(counter: nat, entries: map<string, Bytes>, operations: nat)

  /** What a Get leaves behind and answers when operation number i ends as `ends(i)`. */
  function Fetch(ends: nat -> Effect, s: Shared, id: string): (Shared, Option<uint32>) {
    var n := s.operations;
    if id == "" then (s, None)
    else if !ends(n).Reported() then (s.(operations := n + 1), None)
    else if id in s.entries then
      (s.(operations := n + 1), Some(if |s.entries[id]| >= 4 then BytesToUint32(s.entries[id]) else 0))
    else
      var drawn := s.(counter := if ends(n + 1).Happened() then s.counter + 1 else s.counter, operations := n + 2);
      if !ends(n + 1).Reported() then (drawn, None)
      else
        var sid := drawn.counter % TWO_32;
        (drawn.(entries := if ends(n + 2).Happened() then s.entries[id := Uint32ToBytes(sid)] else s.entries,
                operations := n + 3),
         if ends(n + 2).Reported() then Some(sid) else None)
  }

  /** A Get of a switch with an ID succeeds if all the operations it needs do. */
  lemma FetchAnswers(ends: nat -> Effect, s: Shared, id: string)
    ensures var (s', sid) := Fetch(ends, s, id);
            && s.operations <= s'.operations
            && (sid.Some? <==> id != "" && forall i | s.operations <= i < s'.operations :: ends(i).Reported())
  {
    var n, s' := s.operations, Fetch(ends, s, id).0;
    if id != "" && forall i | n <= i < s'.operations :: ends(i).Reported() {
      assert ends(n).Reported();
      if id !in s.entries {
        assert ends(n + 1).Reported();
        assert ends(n + 2).Reported();
      }
    }
  }

  /** And every Get is a run of the protocol. */
  lemma FetchRun(ends: nat -> Effect, s: Shared, id: string) returns (steps: seq<Step>)
    requires WellFormed(s.entries)
    ensures var (s', sid) := Fetch(ends, s, id);
            Exec(Solo(s.counter, s.entries, Ready), steps)
            == Some(Solo(s'.counter, s'.entries, Ready).(answers := if sid.Some? then [(id, sid.value)] else []))
  {
    hide Exec, BytesToUint32, Uint32ToBytes;
    var s0 := Solo(s.counter, s.entries, Ready);
    ExecNothing(s0);
    steps := [];
    if id != "" {
      var n, failed := s.operations, !ends(s.operations).Reported();
      var s1 := Apply(s0, Begin(0, id));
      ExecStep(s0, steps, s0, Begin(0, id));
      ExecStep(s0, steps + [Begin(0, id)], s1, Read(0, failed));
      steps := steps + [Begin(0, id)] + [Read(0, failed)];
      var s2 := Apply(s1, Read(0, failed));
      assert s2 == Solo(s.counter, s.entries, if failed || id in s.entries then Ready else Missing(id))
                   .(answers := if !failed && id in s.entries then [(id, BytesToUint32(s.entries[id]))] else []);
      if !failed && id !in s.entries {
        ExecStep(s0, steps, s2, Increment(0, ends(n + 1)));
        steps := steps + [Increment(0, ends(n + 1))];
        var s3 := Apply(s2, Increment(0, ends(n + 1)));
        assert s3 == Solo(s3.counter, s.entries, if ends(n + 1).Reported() then Numbered(id, s3.counter) else Ready);
        if ends(n + 1).Reported() {
          ExecStep(s0, steps, s3, Store(0, ends(n + 2)));
          steps := steps + [Store(0, ends(n + 2))];
          var s4 := Apply(s3, Store(0, ends(n + 2)));
          assert s4 == Solo(s4.counter, s4.entries, Ready)
                       .(answers := if ends(n + 2).Reported() then [(id, s3.counter % TWO_32)] else []);
        }
      }
    }
  }

  /** The store as one replica uses it while no other is active: every call is a run of the protocol
      above. How each remote operation ends is for the environment to choose, in `ends`. */
  class SIDAtomixStore {
    const ends: nat -> Effect
    var counter: nat
    var entries: map<string, Bytes>
    var operations: nat

    ghost predicate Valid()
      reads this`entries
    {
      WellFormed(entries)
    }

    ghost function Sids(): map<string, uint32>
      reads this`entries
      requires Valid()
    {
      View(entries)
    }

    ghost function Contents(): (s: Shared)
      reads this
      ensures s.operations == operations
    {
      Shared(counter, entries, operations)
    }

    /** All operations from this one on have succeeded. */
    ghost predicate AllReported(since: nat): (all: bool)
      reads this`operations
      ensures since >= operations ==> all
    {
      forall i | since <= i < operations :: ends(i).Reported()
    }

    /** The replicated counter and map before any replica has opened them. */
    constructor (ends: nat -> Effect)
      ensures Valid() && this.ends == ends && counter == 0 && entries == map[] && operations == 0
    {
      this.ends := ends;
      counter, entries, operations := 0, map[], 0;
    }

    method Operation() returns (effect: Effect)
      modifies this`operations
      ensures effect == ends(old(operations)) && operations == old(operations) + 1
    {
      effect := ends(operations);
      operations := operations + 1;
    }

    /** NewAtomixStore: finds the counter, reads it, sets it if it is too low, and finds the map. It
        stops at the first of these that fails. */
    method Open() returns (ok: bool, ghost steps: seq<Step>)
      requires Valid()
      modifies this
      ensures Valid() && entries == old(entries) && old(operations) < operations <= old(operations) + 4
      ensures Exec(Solo(old(counter), old(entries), Down), steps)
              == Some(Solo(counter, entries, if ok then Ready else Down))
      ensures ok ==> counter == if old(counter) < RESERVED then RESERVED else old(counter)
      ensures ok <==> AllReported(old(operations))
      ensures forall i | old(operations) <= i < operations - 1 :: ends(i).Reported()
      ensures ok ==> operations == old(operations) + if old(counter) < RESERVED then 4 else 3
      ensures var n := old(operations);
              var sets := ends(n).Reported() && ends(n + 1).Reported() && old(counter) < RESERVED;
              counter == if sets && ends(n + 2).Happened() then RESERVED else old(counter)
    {
      hide Exec;
      ghost var s := Solo(counter, entries, Down);
      steps := [];
      ExecNothing(s);
      var found := Operation();
      if !found.Reported() {
        return false, steps;
      }
      var read := Operation();
      if !read.Reported() {
        return false, steps;
      }
      var startingValue := counter;
      ExecStep(s, steps, s, Connect(0));
      steps := steps + [Connect(0)];
      ghost var s1 := Solo(counter, entries, if startingValue < RESERVED then Starting else Ready);
      assert Apply(s, Connect(0)) == s1;
      if startingValue < RESERVED {
        var effect := Operation();
        ExecStep(s, steps, s1, Initialize(0, effect));
        steps := steps + [Initialize(0, effect)];
        if effect.Happened() {
          counter := RESERVED;
        }
        assert Apply(s1, Initialize(0, effect))
               == Solo(counter, entries, if effect.Reported() then Ready else Down);
        if !effect.Reported() {
          return false, steps;
        }
      }
      var mapped := Operation();
      if !mapped.Reported() {
        ghost var s2 := Solo(counter, entries, Ready);
        ExecStep(s, steps, s2, Crash(0));
        assert Apply(s2, Crash(0)) == Solo(counter, entries, Down);
        steps := steps + [Crash(0)];
        return false, steps;
      }
      ok := true;
    }

    /** Gets the SID of a switch, allocating one if it has none: reads the map, and unless the switch is
        there draws a number and stores it, and stops at the first of these that fails. On success the
        SID is the stored one, whatever happens no other switch's SID changes, and numbers are never
        reused. */
    method Get(switchID: string) returns (ok: bool, sid: uint32, ghost steps: seq<Step>)
      requires Valid()
      modifies this
      ensures Valid() && Extends(old(Sids()), Sids()) && Sids().Keys <= old(Sids()).Keys + {switchID}
      ensures ok ==> switchID != "" && switchID in Sids() && sid == Sids()[switchID]
      ensures var n, stored := old(operations), switchID in old(entries);
              && (ok <==> switchID != "" && ends(n).Reported()
                          && (stored || (ends(n + 1).Reported() && ends(n + 2).Reported())))
              && var draws := switchID != "" && ends(n).Reported() && !stored;
                 && counter == old(counter) + (if draws && ends(n + 1).Happened() then 1 else 0)
                 && entries == (if draws && ends(n + 1).Reported() && ends(n + 2).Happened()
                                then old(entries)[switchID := Uint32ToBytes(counter % TWO_32)] else old(entries))
                 && operations == n + (if switchID == "" then 0 else if !draws then 1
                                       else if !ends(n + 1).Reported() then 2 else 3)
      ensures (Contents(), if ok then Some(sid) else None) == Fetch(ends, old(Contents()), switchID)
      ensures Exec(Solo(old(counter), old(entries), Ready), steps)
              == Some(Solo(counter, entries, Ready).(answers := if ok then [(switchID, sid)] else []))
    {
      hide Exec, BytesToUint32, Uint32ToBytes;
      steps := FetchRun(ends, Contents(), switchID);
      ok, sid := false, 0;
      if switchID == "" {
        return;
      }
      var read := Operation();
      if !read.Reported() {
        return;
      }
      if switchID in entries {
        return true, BytesToUint32(entries[switchID]), steps;
      }
      var effect := Operation();
      if effect.Happened() {
        counter := counter + 1;
      }
      if !effect.Reported() {
        return;
      }
      var newSid := counter;
      var put := Operation();
      ViewOfPut(entries, switchID, newSid % TWO_32);
      if put.Happened() {
        entries := entries[switchID := Uint32ToBytes(newSid % TWO_32)];
      }
      ok, sid := put.Reported(), newSid % TWO_32;
    }
  }

  lemma ExecNothing(s: State)
    ensures Exec(s, []) == Some(s)
  {
  }
}
