/** Rule edits between a worker's match and its mark, and rows that nobody finishes. */
module QueueRules {
  import opened Wrappers
  import opened Payloads
  import opened EventTable
  import opened RuleTable
  import opened QueueProtocol
  import opened QueueInvariants
  import QueueIngest

  predicate Owns(s: State, rule: nat, user: nat) {
    rule in s.rules && s.rules[rule].user == user
  }

  /** The rule a worker is about to record belongs to the event's user, unless it has been deleted. */
  predicate MatchFits(s: State, pc: Pc) {
    pc.Matched? && pc.rule.Some? ==>
      && pc.id < |s.rows| && pc.rule.value < s.nextRule
      && (pc.rule.value in s.rules ==> Owns(s, pc.rule.value, s.rows[pc.id].input.user))
  }

  predicate LinkFits(s: State, e: Event) {
    e.matched.Some? ==> Owns(s, e.matched.value, e.input.user)
  }

  ghost predicate RulesInv(s: State) {
    && (forall rule :: rule in s.rules ==> rule < s.nextRule)
    && (forall id :: 0 <= id < |s.rows| ==> LinkFits(s, s.rows[id]))
    && (forall w :: 0 <= w < |s.workers| ==> MatchFits(s, s.workers[w]))
  }

  lemma LinkStep(c: Config, s: State, a: Action, id: nat)
    requires Inv(c, s) && RulesInv(s) && Enabled(c, s, a) && id < |s.rows|
    ensures LinkFits(Apply(c, s, a), RowAfter(s, a, id))
  {
    assert LinkFits(s, s.rows[id]);
    if a.By? {
      assert MatchFits(s, s.workers[a.w]);
    }
  }

  lemma MatchStep(c: Config, s: State, a: Action, w: nat)
    requires Inv(c, s) && RulesInv(s) && Enabled(c, s, a) && w < |s.workers|
    ensures MatchFits(Apply(c, s, a), Apply(c, s, a).workers[w])
  {
    var pc := Apply(c, s, a).workers[w];
    StepWorkers(c, s, a);
    StepRows(c, s, a);
    assert MatchFits(s, s.workers[w]);
    if pc.Matched? && pc.id < |s.rows| {
      RowStep(c, s, a, pc.id);
    }
  }

  lemma RulesStep(c: Config, s: State, a: Action)
    requires Inv(c, s) && RulesInv(s) && Enabled(c, s, a)
    ensures RulesInv(Apply(c, s, a))
  {
    var t := Apply(c, s, a);
    StepRows(c, s, a);
    StepWorkers(c, s, a);
    forall id | 0 <= id < |s.rows|
      ensures LinkFits(t, t.rows[id])
    {
      LinkStep(c, s, a, id);
    }
    forall w | 0 <= w < |t.workers|
      ensures MatchFits(t, t.workers[w])
    {
      MatchStep(c, s, a, w);
    }
  }

  lemma {:induction false} RulesAlways(c: Config, r: Run, n: nat)
    requires IsFullRun(c, r) && n <= |r.acts|
    ensures RulesInv(r.states[n])
  {
    if n > 0 {
      RulesAlways(c, r, n - 1);
      AlwaysInv(c, r, n - 1);
      RulesStep(c, r.states[n - 1], r.acts[n - 1]);
    }
  }

  /**
   Cross-table integrity: however rules are created, edited and deleted while workers match and mark, every
   matched_rule_id that is set names an existing rule of the event's own user.
   */
  lemma MatchedRuleExists(c: Config, r: Run, n: nat, id: nat)
    requires IsFullRun(c, r) && n <= |r.acts| && id < |r.states[n].rows|
    requires r.states[n].rows[id].matched.Some?
    ensures Owns(r.states[n], r.states[n].rows[id].matched.value, r.states[n].rows[id].input.user)
  {
    RulesAlways(c, r, n);
    assert LinkFits(r.states[n], r.states[n].rows[id]);
  }

  // ----- What was matched, and when -----

  /** chosen was an oldest rule that applied to event id in the m-th state. */
  ghost predicate FirstMatchAt(r: Run, m: nat, id: nat, chosen: Option<nat>)
    requires m < |r.states| && id < |r.states[m].rows|
  {
    var input := r.states[m].rows[id].input;
    var amount := PayloadAmount(input.payload);
    amount.Success? && FirstMatch(r.states[m].rules, input.user, input.kind, amount.value, chosen)
  }

  /** Step m is worker w's own reading of the rules, under the claim it is still working on at pc. */
  ghost predicate MatchedAt(r: Run, m: nat, w: nat, pc: Pc)
    requires m < |r.acts| < |r.states| && pc.Matched?
  {
    && r.acts[m] == By(w, MatchRules(pc.rule))
    && w < |r.states[m].workers| && r.states[m].workers[w] == Holding(pc.id, pc.since)
    && pc.since <= r.states[m].clock
    && pc.id < |r.states[m].rows| && FirstMatchAt(r, m, pc.id, pc.rule)
  }

  /**
   What a worker is about to record was the first match for the event when this worker read the rules, after the claim
   it still works on, whatever has been edited since.
   */
  lemma {:induction false} MatchedWasFirst(c: Config, r: Run, n: nat, w: nat)
    requires IsFullRun(c, r) && n <= |r.acts| && w < |r.states[n].workers| && r.states[n].workers[w].Matched?
    ensures exists m :: 0 <= m < n && MatchedAt(r, m, w, r.states[n].workers[w])
  {
    if n > 0 {
      var s, a := r.states[n - 1], r.acts[n - 1];
      AlwaysInv(c, r, n - 1);
      StepWorkers(c, s, a);
      if a.By? && a.w == w {
        assert MatchedAt(r, n - 1, w, r.states[n].workers[w]);
      } else {
        MatchedWasFirst(c, r, n - 1, w);
      }
    }
  }

  /** Step d records event id as processed with a rule its worker matched at an earlier step m. */
  ghost predicate RecordedAt(r: Run, d: nat, m: nat, id: nat, matched: Option<nat>)
    requires m < d < |r.acts| < |r.states|
  {
    && r.acts[d].By? && r.acts[d].op == MarkProcessed(id)
    && r.acts[d].w < |r.states[d].workers|
    && var pc := r.states[d].workers[r.acts[d].w];
       pc.Matched? && pc.id == id && pc.rule == matched && MatchedAt(r, m, r.acts[d].w, pc)
  }

  /** The rule was deleted at some step from the d-th on, before the n-th. */
  ghost predicate DeletedBetween(r: Run, d: nat, n: nat, rule: nat)
    requires n <= |r.acts|
  {
    exists e :: d <= e < n && r.acts[e].DeleteRule? && r.acts[e].ruleId == rule
  }

  /** The row carries what step d recorded, or nothing if that very rule has been deleted since. */
  ghost predicate CarriesRecord(r: Run, d: nat, n: nat, e: Event, matched: Option<nat>)
    requires n <= |r.acts|
  {
    e.matched == matched || (e.matched.None? && matched.Some? && DeletedBetween(r, d, n, matched.value))
  }

  /** Event id is processed as some step d recorded it. */
  ghost predicate RecordedFrom(r: Run, n: nat, id: nat)
    requires n <= |r.acts| < |r.states| && id < |r.states[n].rows|
  {
    exists d, m, matched ::
      0 <= m < d < n && RecordedAt(r, d, m, id, matched) && CarriesRecord(r, d, n, r.states[n].rows[id], matched)
  }

  /** Only a successful mark makes a row processed, and only a deleted rule changes it afterwards. */
  lemma ProcessedStep(c: Config, s: State, a: Action, id: nat)
    requires Inv(c, s) && Enabled(c, s, a) && id < |Apply(c, s, a).rows|
    requires Apply(c, s, a).rows[id].status.Processed? && !(a.By? && a.op == MarkProcessed(id))
    ensures id < |s.rows| && s.rows[id].status.Processed?
    ensures var was, now := s.rows[id].matched, Apply(c, s, a).rows[id].matched;
            now == was || (now.None? && was.Some? && a.DeleteRule? && a.ruleId == was.value)
  {
    StepRows(c, s, a);
  }

  lemma StillCarries(r: Run, d: nat, n: nat, before: Event, after: Event, matched: Option<nat>)
    requires d < n <= |r.acts| && CarriesRecord(r, d, n - 1, before, matched)
    requires var a := r.acts[n - 1];
             || after.matched == before.matched
             || (after.matched.None? && before.matched.Some? && a.DeleteRule? && a.ruleId == before.matched.value)
    ensures CarriesRecord(r, d, n, after, matched)
  {
    if before.matched != matched {
      assert DeletedBetween(r, d, n - 1, matched.value);
      var e :| d <= e < n - 1 && r.acts[e].DeleteRule? && r.acts[e].ruleId == matched.value;
      assert d <= e < n;
    }
  }

  /**
   A processed row carries the rule that was the first match for the event when the worker that marked it read the
   rules; it carries none only if there was none then, or that very rule has been deleted since.
   */
  lemma {:induction false} RecordedWasFirst(c: Config, r: Run, n: nat, id: nat)
    requires IsFullRun(c, r) && n <= |r.acts| && id < |r.states[n].rows| && r.states[n].rows[id].status.Processed?
    ensures RecordedFrom(r, n, id)
  {
    if n > 0 {
      var s, a := r.states[n - 1], r.acts[n - 1];
      AlwaysInv(c, r, n - 1);
      if a.By? && a.op == MarkProcessed(id) {
        MatchedWasFirst(c, r, n - 1, a.w);
        var m :| 0 <= m < n - 1 && MatchedAt(r, m, a.w, s.workers[a.w]);
        assert RecordedAt(r, n - 1, m, id, s.workers[a.w].rule);
        assert CarriesRecord(r, n - 1, n, r.states[n].rows[id], s.workers[a.w].rule);
      } else {
        ProcessedStep(c, s, a, id);
        RecordedWasFirst(c, r, n - 1, id);
        var d, m, matched :| 0 <= m < d < n - 1 && RecordedAt(r, d, m, id, matched)
                             && CarriesRecord(r, d, n - 1, s.rows[id], matched);
        StillCarries(r, d, n, s.rows[id], r.states[n].rows[id], matched);
      }
    }
  }

  /** The payload of event id carries no number. */
  predicate Numberless(e: Event) {
    !(e.input.payload.Object? && e.input.payload.field.Number?)
  }

  /** In the m-th state the rule had no threshold, or a threshold that a null amount, read as zero, meets. */
  ghost predicate MatchesNumberless(r: Run, m: nat, rule: nat, e: Event)
    requires m < |r.states|
  {
    && rule in r.states[m].rules
    && var threshold := r.states[m].rules[rule].threshold;
       threshold.None? || (e.input.payload == Object(NullAmount) && 0.0 <= threshold.value)
  }

  /**
   In any run, the rule on a processed event without a number had no threshold when it was matched, unless the event's
   amount is a JSON null and the threshold was not negative.
   */
  lemma NumberlessMatch(c: Config, r: Run, n: nat, id: nat)
    requires IsFullRun(c, r) && n <= |r.acts| && id < |r.states[n].rows| && Numberless(r.states[n].rows[id])
    requires r.states[n].rows[id].status.Processed? && r.states[n].rows[id].matched.Some?
    ensures exists m :: 0 <= m < n && MatchesNumberless(r, m, r.states[n].rows[id].matched.value, r.states[n].rows[id])
  {
    RecordedWasFirst(c, r, n, id);
    var d, m, matched :| 0 <= m < d < n && RecordedAt(r, d, m, id, matched)
                         && r.states[n].rows[id].matched == matched;
    QueueIngest.IngestIsImmutable(c, r, m, n, id);
    var input, rule := r.states[m].rows[id].input, matched.value;
    assert FirstMatchAt(r, m, id, matched);
    if r.states[m].rules[rule].threshold.Some? {
      ThresholdWithoutNumber(r.states[m].rules[rule], input.user, input.kind, input.payload);
    }
    assert MatchesNumberless(r, m, rule, r.states[n].rows[id]);
  }

  /** In every reachable state rules with lower numbers were created no later, and none is from the future. */
  lemma {:induction false} RulesInOrder(c: Config, r: Run, n: nat)
    requires IsFullRun(c, r) && n <= |r.acts|
    ensures var s := r.states[n];
            && (forall q :: q in s.rules ==> q < s.nextRule && s.rules[q].createdAt <= s.clock)
            && (forall p, q :: p in s.rules && q in s.rules && p < q ==> s.rules[p].createdAt <= s.rules[q].createdAt)
  {
    if n > 0 {
      RulesInOrder(c, r, n - 1);
      assert Enabled(c, r.states[n - 1], r.acts[n - 1]);
    }
  }

  /** A rule that was there and is gone has been deleted by its owner. */
  lemma {:induction false} GoneWasDeleted(c: Config, r: Run, m: nat, n: nat, rule: nat)
    requires IsFullRun(c, r) && m <= n <= |r.acts| && rule in r.states[m].rules && rule !in r.states[n].rules
    ensures exists d :: m <= d < n && r.acts[d].DeleteRule? && r.acts[d].ruleId == rule
                        && Owns(r.states[d], rule, r.acts[d].user)
  {
    if m < n {
      assert Enabled(c, r.states[n - 1], r.acts[n - 1]);
      if rule !in r.states[n - 1].rules {
        GoneWasDeleted(c, r, m, n - 1, rule);
      } else {
        assert r.acts[n - 1].DeleteRule? && r.acts[n - 1].ruleId == rule;
      }
    }
  }

  // ----- A rule deleted between match and mark -----

  /** The statements that may change a processing row: a new claim of it, or a mark. */
  predicate Touches(a: Action, id: nat) {
    a.By? && (a.op.Commit? || a.op.MarkProcessed? || a.op.MarkFailed?) && a.op.id == id
  }

  /** A processing row stays exactly as it is until it is claimed again or marked. */
  lemma {:induction false} ProcessingRowKept(c: Config, r: Run, m: nat, n: nat, id: nat)
    requires IsFullRun(c, r) && m <= n <= |r.acts|
    requires id < |r.states[m].rows| && r.states[m].rows[id].status.Processing?
    requires forall i :: m <= i < n ==> !Touches(r.acts[i], id)
    ensures id < |r.states[n].rows| && r.states[n].rows[id] == r.states[m].rows[id]
  {
    if m < n {
      ProcessingRowKept(c, r, m, n - 1, id);
      AlwaysInv(c, r, n - 1);
      StepRows(c, r.states[n - 1], r.acts[n - 1]);
      assert !Touches(r.acts[n - 1], id);
    }
  }

  /**
   Recovery of a processing row that nobody finishes, be it that its mark was refused, its worker crashed or gave up:
   past the lease, a worker goes away with nothing only if the row has been claimed or marked since, or is being
   claimed; and until then a claim takes no row received later.
   */
  lemma StuckRowIsRecovered(c: Config, r: Run, m: nat, n: nat, id: nat)
    requires IsFullRun(c, r) && m <= n < |r.acts| && r.acts[n].By?
    requires id < |r.states[m].rows| && r.states[m].rows[id].status.Processing?
    requires r.states[m].rows[id].claimedAt.Some?
             ==> r.states[m].rows[id].claimedAt.value + c.lease * SECOND <= r.states[n].clock
    ensures r.acts[n].op.FindNothing? ==>
              (exists i :: m <= i < n && Touches(r.acts[i], id)) || id in Locked(r.states[n].workers)
    ensures r.acts[n].op.Lock? ==>
              || (exists i :: m <= i < n && Touches(r.acts[i], id)) || id in Locked(r.states[n].workers)
              || (var rows := r.states[n].rows;
                  id < |rows| && r.acts[n].op.id < |rows| && rows[r.acts[n].op.id].receivedAt <= rows[id].receivedAt)
  {
    if !(exists i :: m <= i < n && Touches(r.acts[i], id)) {
      ProcessingRowKept(c, r, m, n, id);
      AlwaysInv(c, r, m);
      assert Enabled(c, r.states[n], r.acts[n]);
      assert Eligible(r.states[n].rows[id], c.maxAttempts, c.lease, r.states[n].clock);
    }
  }

  /** Step m refuses a mark because the rule its worker had matched at step k was deleted at step d. */
  ghost predicate RefusedFor(r: Run, k: nat, d: nat, m: nat)
    requires k < d < m < |r.acts| < |r.states| && r.acts[m].By?
  {
    && r.acts[m].w < |r.states[m].workers|
    && var pc := r.states[m].workers[r.acts[m].w];
       && pc.Matched? && pc.rule.Some? && MatchedAt(r, k, r.acts[m].w, pc)
       && r.acts[d].DeleteRule? && r.acts[d].ruleId == pc.rule.value
  }

  /** A rule that was matched at step k and is gone at m was deleted by a step in between. */
  lemma DeletedAfterMatch(c: Config, r: Run, k: nat, m: nat, w: nat, pc: Pc)
    requires IsFullRun(c, r) && k < m < |r.acts| && pc.Matched? && pc.rule.Some? && MatchedAt(r, k, w, pc)
    requires pc.rule.value !in r.states[m].rules
    ensures exists d :: k < d < m && r.acts[d].DeleteRule? && r.acts[d].ruleId == pc.rule.value
  {
    GoneWasDeleted(c, r, k, m, pc.rule.value);
    var d :| k <= d < m && r.acts[d].DeleteRule? && r.acts[d].ruleId == pc.rule.value;
    assert d != k;
  }

  /** A refused mark comes from a worker that has matched a rule which is there no more. */
  lemma RefusalShows(c: Config, s: State, a: Action)
    requires Enabled(c, s, a) && a.By? && a.op.MarkRefused?
    ensures a.w < |s.workers| && s.workers[a.w].Matched? && s.workers[a.w].rule.Some?
    ensures s.workers[a.w].rule.value !in s.rules
  {
  }

  lemma RefusedAfterDeletion(c: Config, r: Run, m: nat)
    requires IsFullRun(c, r) && m < |r.acts| && r.acts[m].By? && r.acts[m].op.MarkRefused?
    ensures exists k, d :: 0 <= k < d < m && RefusedFor(r, k, d, m)
  {
    var w := r.acts[m].w;
    RefusalShows(c, r.states[m], r.acts[m]);
    MatchedWasFirst(c, r, m, w);
    var k :| 0 <= k < m && MatchedAt(r, k, w, r.states[m].workers[w]);
    DeletedAfterMatch(c, r, k, m, w, r.states[m].workers[w]);
    var d :| k < d < m && r.acts[d].DeleteRule? && r.acts[d].ruleId == r.states[m].workers[w].rule.value;
    assert RefusedFor(r, k, d, m);
  }

  /**
   A mark is refused only because the rule its worker matched was deleted after the match, and it changes no row; so
   past the row's lease a worker finds nothing to claim only if the event has been claimed or marked again, or is
   being claimed.
   */
  lemma DeletedRuleIsRecovered(c: Config, r: Run, m: nat, n: nat)
    requires IsFullRun(c, r) && m < n < |r.acts| && r.acts[m].By? && r.acts[m].op.MarkRefused?
    ensures exists k, d :: 0 <= k < d < m && RefusedFor(r, k, d, m)
    ensures var s, t, id := r.states[m], r.states[m + 1], r.acts[m].op.id;
            && t.rows == s.rows && id < |s.rows| && s.rows[id].status.Processing? && s.rows[id].claimedAt.Some?
            && (r.acts[n].By? && r.acts[n].op.FindNothing?
                && s.rows[id].claimedAt.value + c.lease * SECOND <= r.states[n].clock ==>
                  (exists i :: m < i < n && Touches(r.acts[i], id)) || id in Locked(r.states[n].workers))
  {
    var s, a := r.states[m], r.acts[m];
    AlwaysInv(c, r, m);
    RefusedAfterDeletion(c, r, m);
    assert Enabled(c, s, a);
    assert r.states[m + 1].rows == s.rows;
    if r.acts[n].By? && r.acts[n].op.FindNothing?
       && s.rows[a.op.id].claimedAt.value + c.lease * SECOND <= r.states[n].clock
    {
      StuckRowIsRecovered(c, r, m + 1, n, a.op.id);
    }
  }
}
