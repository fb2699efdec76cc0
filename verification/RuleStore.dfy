/** api/internal/rules/store.go: the alert_rules table as an object. */
module RuleStore {
  import opened Wrappers
  import opened EventTable
  import opened RuleTable
  import opened EventStore

  /** A partial update: fields that are present replace the stored ones, the threshold possibly by nothing. */
  datatype UpdateInput = UpdateInput(
    name: Option<string>,
    kind: Option<string>,
    threshold: Option<Option<real>>,
    enabled: Option<bool>)

  function Patched(rule: Rule, input: UpdateInput): Rule {
    rule.(
    name := if input.name.Some? then input.name.value else rule.name,
    kind := if input.kind.Some? then input.kind.value else rule.kind,
    threshold := if input.threshold.Some? then input.threshold.value else rule.threshold,
    enabled := if input.enabled.Some? then input.enabled.value else rule.enabled)
  }

  /**
   Two updates that both read the rule before either writes it leave what the later writer made of the old rule.
   That equals applying one after the other exactly when the later one also sets whatever the earlier one changed.
   */
  lemma LostUpdate(rule: Rule, earlier: UpdateInput, later: UpdateInput)
    ensures Patched(rule, later) == Patched(Patched(rule, earlier), later) <==>
            && (earlier.name.Some? && earlier.name.value != rule.name ==> later.name.Some?)
            && (earlier.kind.Some? && earlier.kind.value != rule.kind ==> later.kind.Some?)
            && (earlier.threshold.Some? && earlier.threshold.value != rule.threshold ==> later.threshold.Some?)
            && (earlier.enabled.Some? && earlier.enabled.value != rule.enabled ==> later.enabled.Some?)
  {
  }

  class Store {
    var rules: map<nat, Rule>
    var next: nat        // ids are handed out in order of creation
    var latest: Instant  // no rule was created later

    /** Ids and creation times increase together. */
    ghost predicate Valid()
      reads this
    {
      && (forall r :: r in rules ==> r < next && rules[r].createdAt <= latest)
      && (forall r, q :: r in rules && q in rules && r < q ==> rules[r].createdAt <= rules[q].createdAt)
    }

    constructor (start: Instant)
      ensures Valid() && rules == map[]
    {
      rules, next, latest := map[], 0, start;
    }

    method Create(user: nat, name: string, kind: string, threshold: Option<real>, enabled: bool, now: Instant)
      returns (id: nat)
      requires Valid() && latest <= now
      modifies this
      ensures Valid() && latest == now && id !in old(rules)
      ensures rules == old(rules)[id := Rule(user, name, kind, threshold, enabled, now)]
    {
      id := next;
      rules := rules[id := Rule(user, name, kind, threshold, enabled, now)];
      next, latest := next + 1, now;
    }

    method GetForUser(user: nat, id: nat) returns (found: Result<Rule, StoreError>)
      ensures found == if id in rules && rules[id].user == user then Success(rules[id]) else Failure(NotFound)
    {
      if id in rules && rules[id].user == user {
        return Success(rules[id]);
      }
      return Failure(NotFound);
    }

    method UpdateForUser(user: nat, id: nat, input: UpdateInput) returns (updated: Result<Rule, StoreError>)
      requires Valid()
      modifies this
      ensures Valid()
      ensures if id in old(rules) && old(rules)[id].user == user
              then
                && rules == old(rules)[id := Patched(old(rules)[id], input)] && updated == Success(rules[id])
                && var was, now := old(rules)[id], rules[id];
                   && now.user == was.user && now.createdAt == was.createdAt
                   && now.name == (if input.name.Some? then input.name.value else was.name)
                   && now.kind == (if input.kind.Some? then input.kind.value else was.kind)
                   && now.threshold == (if input.threshold.Some? then input.threshold.value else was.threshold)
                   && now.enabled == (if input.enabled.Some? then input.enabled.value else was.enabled)
              else rules == old(rules) && updated == Failure(NotFound)
    {
      var current := GetForUser(user, id);
      if current.Failure? {
        return Failure(current.error);
      }
      var name, kind := current.value.name, current.value.kind;
      var threshold, enabled := current.value.threshold, current.value.enabled;
      if input.name.Some? {
        name := input.name.value;
      }
      if input.kind.Some? {
        kind := input.kind.value;
      }
      if input.threshold.Some? {
        threshold := input.threshold.value;
      }
      if input.enabled.Some? {
        enabled := input.enabled.value;
      }
      rules := rules[id := rules[id].(name := name, kind := kind, threshold := threshold, enabled := enabled)];
      return Success(rules[id]);
    }

    /** Deletes the user's rule and, through the foreign key, every event's reference to it. */
    method DeleteForUser(user: nat, id: nat, events: EventStore.Store) returns (error: Option<StoreError>)
      requires Valid()
      modifies this, events
      ensures Valid()
      ensures if id in old(rules) && old(rules)[id].user == user
              then error.None? && rules == old(rules) - {id} && events.rows == UnlinkAll(old(events.rows), id)
              else error == Some(NotFound) && rules == old(rules) && events.rows == old(events.rows)
      ensures |events.rows| == |old(events.rows)|
      ensures forall i :: 0 <= i < |events.rows| ==>
                var was := old(events.rows)[i];
                events.rows[i] == if error.None? && was.matched == Some(id) then was.(matched := None) else was
    {
      if id !in rules || rules[id].user != user {
        return Some(NotFound);
      }
      rules := rules - {id};
      events.rows := UnlinkAll(events.rows, id);
      return None;
    }

    /** The user's enabled rules for an event type, oldest first, each once. */
    method EnabledByUserAndType(user: nat, kind: string) returns (out: seq<nat>)
      requires Valid()
      ensures forall r :: r in out <==> r in rules && rules[r].enabled && rules[r].user == user && rules[r].kind == kind
      ensures forall i, j :: 0 <= i < j < |out| ==>
                             out[i] < out[j] && rules[out[i]].createdAt <= rules[out[j]].createdAt
    {
      out := [];
      for r := 0 to next
        invariant forall q :: q in out <==>
                    q in rules && q < r && rules[q].enabled && rules[q].user == user && rules[q].kind == kind
        invariant forall i :: 0 <= i < |out| ==> out[i] < r
        invariant forall i, j :: 0 <= i < j < |out| ==> out[i] < out[j]
      {
        if r in rules && rules[r].enabled && rules[r].user == user && rules[r].kind == kind {
          out := out + [r];
        }
      }
    }
  }
}
