/** Concurrent CreatePending calls: replays collapse to one row. */
module QueueIngest {
  import opened Wrappers
  import opened EventTable
  import opened QueueProtocol
  import opened QueueInvariants

  /** What a call's progress says about the table. */
  ghost predicate CallFits(rows: seq<Event>, call: Call) {
    match call.phase
    case Conflicted => HasKey(rows, call.input)
    case Answered(id, created) =>
      && id < |rows| && SameKey(rows[id].input, call.input)
      && (created ==> rows[id].input == call.input)
    case Missing => false
  }

  ghost predicate CreatedBy(calls: seq<Call>, id: nat) {
    exists k :: 0 <= k < |calls| && calls[k].phase == Answered(id, true)
  }

  ghost predicate OneCreator(calls: seq<Call>) {
    forall k, l ::
      0 <= k < |calls| && 0 <= l < |calls| && k != l && Creates(calls[k]) && Creates(calls[l])
      ==> calls[k].phase.id != calls[l].phase.id
  }

  predicate Creates(call: Call) {
    call.phase.Answered? && call.phase.created
  }

  ghost predicate IngestInv(s: State) {
    && UniqueKeys(s.rows)
    && (forall k :: 0 <= k < |s.calls| ==> CallFits(s.rows, s.calls[k]))
    && (forall id :: 0 <= id < |s.rows| ==> CreatedBy(s.calls, id))
    && OneCreator(s.calls)
  }

  ghost predicate Grows(before: seq<Event>, after: seq<Event>) {
    && |before| <= |after|
    && forall i :: 0 <= i < |before| ==> SameIngest(before[i], after[i])
  }

  lemma StepGrows(c: Config, s: State, a: Action)
    requires Inv(c, s) && Enabled(c, s, a)
    ensures Grows(s.rows, Apply(c, s, a).rows)
  {
    StepRows(c, s, a);
    forall i | 0 <= i < |s.rows|
      ensures SameIngest(s.rows[i], Apply(c, s, a).rows[i])
    {
      RowStep(c, s, a, i);
    }
  }

  lemma CallStillFits(before: seq<Event>, after: seq<Event>, call: Call)
    requires Grows(before, after) && CallFits(before, call)
    ensures CallFits(after, call)
  {
    if call.phase.Conflicted? {
      var i :| 0 <= i < |before| && SameKey(before[i].input, call.input);
      assert SameKey(after[i].input, call.input);
    }
  }

  lemma KeysStayUnique(before: seq<Event>, after: seq<Event>)
    requires Grows(before, after) && UniqueKeys(before) && |after| <= |before| + 1
    requires |after| > |before| ==> !HasKey(before, after[|before|].input)
    ensures UniqueKeys(after)
  {
    forall i, j | 0 <= i < j < |after|
      ensures !SameKey(after[i].input, after[j].input)
    {
      assert SameIngest(before[i], after[i]);
    }
  }

  lemma CreatorsStep(before: seq<Call>, after: seq<Call>, rows: nat, added: Option<Call>)
    requires after == before + (if added.Some? then [added.value] else [])
    requires forall k :: 0 <= k < |before| && before[k].phase.Answered? ==> before[k].phase.id < rows
    requires added.Some? && Creates(added.value) ==> added.value.phase.id == rows
    requires (forall id :: 0 <= id < rows ==> CreatedBy(before, id)) && OneCreator(before)
    ensures OneCreator(after)
    ensures forall id :: 0 <= id < rows ==> CreatedBy(after, id)
    ensures added.Some? && Creates(added.value) ==> CreatedBy(after, rows)
  {
    forall id | 0 <= id < rows
      ensures CreatedBy(after, id)
    {
      assert CreatedBy(before, id);
      var k :| 0 <= k < |before| && before[k].phase == Answered(id, true);
      assert after[k].phase == Answered(id, true);
    }
    if added.Some? && Creates(added.value) {
      assert after[|before|].phase == Answered(rows, true);
    }
  }

  lemma IngestStep(c: Config, s: State, a: Action)
    requires Inv(c, s) && IngestInv(s) && Enabled(c, s, a)
    ensures IngestInv(Apply(c, s, a))
  {
    var t := Apply(c, s, a);
    StepRows(c, s, a);
    StepGrows(c, s, a);
    KeysStayUnique(s.rows, t.rows);
    forall k | 0 <= k < |s.calls|
      ensures CallFits(t.rows, s.calls[k])
    {
      CallStillFits(s.rows, t.rows, s.calls[k]);
    }
    match a
    case Insert(input) => InsertStep(c, s, input);
    case Lookup(k, found) => LookupStep(c, s, k, found);
    case _ =>
  }

  lemma InsertStep(c: Config, s: State, input: CreateInput)
    requires IngestInv(s)
    ensures var t := Apply(c, s, Insert(input));
            && CallFits(t.rows, t.calls[|s.calls|])
            && (forall id :: 0 <= id < |t.rows| ==> CreatedBy(t.calls, id)) && OneCreator(t.calls)
  {
    var t := Apply(c, s, Insert(input));
    forall k | 0 <= k < |s.calls| && s.calls[k].phase.Answered?
      ensures s.calls[k].phase.id < |s.rows|
    {
      assert CallFits(s.rows, s.calls[k]);
    }
    CreatorsStep(s.calls, t.calls, |s.rows|, Some(t.calls[|s.calls|]));
  }

  lemma LookupStep(c: Config, s: State, k: nat, found: Option<nat>)
    requires IngestInv(s) && Enabled(c, s, Lookup(k, found))
    ensures var t := Apply(c, s, Lookup(k, found));
            && CallFits(t.rows, t.calls[k])
            && (forall id :: 0 <= id < |t.rows| ==> CreatedBy(t.calls, id)) && OneCreator(t.calls)
  {
    var t := Apply(c, s, Lookup(k, found));
    assert CallFits(s.rows, s.calls[k]);
    forall id | 0 <= id < |t.rows|
      ensures CreatedBy(t.calls, id)
    {
      assert CreatedBy(s.calls, id);
      var l :| 0 <= l < |s.calls| && s.calls[l].phase == Answered(id, true);
      assert t.calls[l].phase == Answered(id, true);
    }
  }

  lemma {:induction false} IngestAlways(c: Config, r: Run, n: nat)
    requires IsFullRun(c, r) && n <= |r.acts|
    ensures IngestInv(r.states[n])
  {
    if n > 0 {
      IngestAlways(c, r, n - 1);
      AlwaysInv(c, r, n - 1);
      IngestStep(c, r.states[n - 1], r.acts[n - 1]);
    }
  }

  /**
   Idempotent ingest, in every interleaving of the insert and lookup statements of any number of calls: at most one
   row per (user, key); two calls for one key that answered report the same row; exactly one of the calls for that
   key reports created; and a lookup after a conflict always finds the row.
   */
  lemma IdempotentIngest(c: Config, r: Run, n: nat, k: nat, l: nat)
    requires IsFullRun(c, r) && n <= |r.acts|
    requires var calls := r.states[n].calls;
             k < |calls| && l < |calls| && SameKey(calls[k].input, calls[l].input)
    ensures forall i, j :: 0 <= i < j < |r.states[n].rows| ==>
              var a, b := r.states[n].rows[i].input, r.states[n].rows[j].input;
              a.user != b.user || a.key != b.key
    ensures var calls := r.states[n].calls;
            && !calls[k].phase.Missing?
            && (calls[k].phase.Answered? && calls[l].phase.Answered? ==> calls[k].phase.id == calls[l].phase.id)
            && (Creates(calls[k]) && Creates(calls[l]) ==> k == l)
            && (exists m :: 0 <= m < |calls| && SameKey(calls[m].input, calls[k].input) && Creates(calls[m]))
  {
    var s := r.states[n];
    IngestAlways(c, r, n);
    assert CallFits(s.rows, s.calls[k]) && CallFits(s.rows, s.calls[l]);
    var id :| 0 <= id < |s.rows| && SameKey(s.rows[id].input, s.calls[k].input);
    assert CreatedBy(s.calls, id);
    var m :| 0 <= m < |s.calls| && s.calls[m].phase == Answered(id, true);
    assert CallFits(s.rows, s.calls[m]);
    assert Creates(s.calls[m]) && SameKey(s.calls[m].input, s.calls[k].input);
  }

  /** An event's user, key, type, payload and received_at never change once it is inserted. */
  lemma {:induction false} IngestIsImmutable(c: Config, r: Run, m: nat, n: nat, id: nat)
    requires IsFullRun(c, r) && m <= n <= |r.acts| && id < |r.states[m].rows|
    ensures id < |r.states[n].rows| && SameIngest(r.states[m].rows[id], r.states[n].rows[id])
    ensures var was, now := r.states[m].rows[id], r.states[n].rows[id];
            && now.input.user == was.input.user && now.input.key == was.input.key && now.input.kind == was.input.kind
            && now.input.payload == was.input.payload && now.receivedAt == was.receivedAt
  {
    if m < n {
      IngestIsImmutable(c, r, m, n - 1, id);
      AlwaysInv(c, r, n - 1);
      StepGrows(c, r.states[n - 1], r.acts[n - 1]);
    }
  }
}
